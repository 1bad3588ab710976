// The loops of internal/adapters/consul/http.go, proved against the functions of HttpCompile and
// Precedence.

module HttpChain {
  import opened Wrappers
  import opened Core
  import opened ConsulEntries
  import opened HttpMeaning
  import opened Naming
  import opened HttpCompile
  import opened Precedence
  import opened HttpCorrect
  import opened HttpFields

  method MergeMaps(a: map<string, string>, b: map<string, string>) returns (r: map<string, string>)
    ensures r == a + b
  {
    r := a;
    var rest := b.Keys;
    while rest != {}
      invariant rest <= b.Keys
      invariant r == a + (b - rest)
      decreases rest
    {
      var k :| k in rest;
      r := r[k := b[k]];
      rest := rest - {k};
    }
    assert b - {} == b;
  }

  method FiltersToHeaderModifier(filters: seq<HTTPFilter>) returns (m: HeaderModifiers)
    ensures m == Modifiers(filters) && ChangesAsAsked(m, filters)
  {
    m := NO_MODIFIERS;
    for i := 0 to |filters|
      invariant m == Modifiers(filters[..i])
    {
      assert filters[..i + 1][..i] == filters[..i];
      if filters[i].HeaderFilter? {
        var add := MergeMaps(m.add, filters[i].header.addHeaders);
        var put := MergeMaps(m.put, filters[i].header.setHeaders);
        m := HeaderModifiers(add, put, m.remove + filters[i].header.removeHeaders);
      }
    }
    assert filters[..|filters|] == filters;
    ModifiersAsAsked(filters);
  }

  method FiltersToPrefixRewrite(filters: seq<HTTPFilter>) returns (p: string)
    ensures p == PrefixRewrite(filters) && RewriteAsAsked(p, filters)
  {
    PrefixRewriteAsAsked(filters);
    for i := 0 to |filters|
      invariant PrefixRewrite(filters) == PrefixRewrite(filters[i..])
    {
      assert filters[i..][1..] == filters[i + 1..];
      if filters[i].URLRewriteFilter? && filters[i].replacesPrefix {
        return filters[i].replacePrefixMatch;
      }
    }
    return "";
  }

  method TranslateMatch(m: HTTPMatch) returns (t: ServiceRouteMatch)
    ensures t == TranslatedMatch(m)
  {
    var headers: seq<MatchHeader> := [];
    for i := 0 to |m.headers|
      invariant headers == TranslatedHeaders(m.headers[..i])
    {
      assert m.headers[..i + 1][..i] == m.headers[..i];
      headers := headers + Optional(TranslatedHeader(m.headers[i]));
    }
    assert m.headers[..|m.headers|] == m.headers;
    var params: seq<MatchQueryParam> := [];
    for i := 0 to |m.query|
      invariant params == TranslatedQueries(m.query[..i])
    {
      assert m.query[..i + 1][..i] == m.query[..i];
      params := params + Optional(TranslatedQuery(m.query[i]));
    }
    assert m.query[..|m.query|] == m.query;
    t := ServiceRouteMatch(
      if m.path.kind.PathExact? then m.path.value else "",
      if m.path.kind.PathPrefix? then m.path.value else "",
      if m.path.kind.PathRegex? then m.path.value else "",
      headers, params, if m.httpMethod.MethodNone? then [] else [MethodName(m.httpMethod)]);
  }

  lemma {:induction false} WeightsOfPrefix(services: seq<HTTPService>, i: nat)
    requires WeightsInRange(services) && i <= |services|
    ensures WeightsInRange(services[..i])
  {}

  /** The 32-bit running total; within the limits on weights it is the true total. */
  method SumWeights(services: seq<HTTPService>) returns (total: int)
    requires WeightsInRange(services)
    ensures total == TotalWeight(services)
  {
    total := 0;
    for i := 0 to |services|
      invariant total == TotalWeight(services[..i])
    {
      assert services[..i + 1][..i] == services[..i];
      WeightsOfPrefix(services, i + 1);
      TotalFitsInt32(services[..i + 1]);
      total := WrapInt32(total + services[i].weight);
    }
    assert services[..|services|] == services;
  }

  method SplitServices(services: seq<HTTPService>) returns (splits: seq<ServiceSplit>)
    requires WeightsInRange(services)
    ensures splits == SplitsOf(services)
  {
    var total := SumWeights(services);
    splits := [];
    for i := 0 to |services|
      invariant |splits| == |Weighted(services[..i])|
      invariant forall k | 0 <= k < |splits| :: total != 0 && splits[k] == SplitOf(Weighted(services[..i])[k], total)
    {
      assert services[..i + 1][..i] == services[..i];
      if services[i].weight != 0 {
        TotalIsPositive(services, i);
        var modifier := FiltersToHeaderModifier(services[i].filters);
        var percentage := services[i].weight as real / total as real;
        splits := splits + [ServiceSplit(percentage * 100.0, services[i].service, modifier)];
      }
    }
    assert services[..|services|] == services;
    WeightedSum(services);
  }

  /** Only services with weight are divided by the total, so it is never zero then. */
  lemma {:induction false} TotalIsPositive(services: seq<HTTPService>, i: nat)
    requires WeightsInRange(services) && i < |services| && services[i].weight != 0
    ensures TotalWeight(services) > 0
  {
    WeightedSum(services);
    if TotalWeight(services) <= 0 {
      AllWeightless(services);
      assert false;
    }
  }

  method RuleDestination(route: ResolvedRoute, idx: nat) returns (d: Destination, splitter: Option<ServiceSplitter>)
    requires route.HTTPRoute? && RuleWeightsInRange(route) && idx < |route.rules|
    ensures d == DestinationOf(route.name, route.namespace, idx, route.rules[idx])
    ensures splitter == SplitterOf(route.name, route.namespace, route.meta, idx, route.rules[idx])
  {
    var rule := route.rules[idx];
    var modifier := FiltersToHeaderModifier(rule.filters);
    var rewrite := FiltersToPrefixRewrite(rule.filters);
    if |rule.services| == 1 {
      var serviceModifier := FiltersToHeaderModifier(rule.services[0].filters);
      var add := MergeMaps(modifier.add, serviceModifier.add);
      var put := MergeMaps(modifier.put, serviceModifier.put);
      modifier := HeaderModifiers(add, put, modifier.remove + serviceModifier.remove);
      d, splitter := Destination(rule.services[0].service, rewrite, modifier), None;
    } else {
      var virtual := VirtualName(route.name, idx);
      d := Destination(ResolvedService(route.namespace, virtual), rewrite, modifier);
      var splits := SplitServices(rule.services);
      splitter := if |splits| > 0 then Some(ServiceSplitter(virtual, route.namespace, route.meta, splits)) else None;
    }
  }

  lemma {:induction false} BelowOneMore(route: ResolvedRoute, idx: nat)
    requires route.HTTPRoute? && RuleWeightsInRange(route) && idx < |route.rules|
    ensures RoutesBelow(route.name, route.namespace, route.rules, idx + 1) ==
            RoutesBelow(route.name, route.namespace, route.rules, idx) +
            RuleRoutes(route.name, route.namespace, idx, route.rules[idx])
    ensures SplittersBelow(route.name, route.namespace, route.meta, route.rules, idx + 1) ==
            SplittersBelow(route.name, route.namespace, route.meta, route.rules, idx) +
            Optional(SplitterOf(route.name, route.namespace, route.meta, idx, route.rules[idx]))
  {}

  method RuleEntries(route: ResolvedRoute, idx: nat)
    returns (routes: seq<ServiceRoute>, splitter: Option<ServiceSplitter>)
    requires route.HTTPRoute? && RuleWeightsInRange(route) && idx < |route.rules|
    ensures routes == RuleRoutes(route.name, route.namespace, idx, route.rules[idx])
    ensures splitter == SplitterOf(route.name, route.namespace, route.meta, idx, route.rules[idx])
  {
    var d;
    d, splitter := RuleDestination(route, idx);
    routes := RuleServiceRoutes(route.rules[idx].matches, d);
  }

  method HttpRouteDiscoveryChain(route: ResolvedRoute) returns (router: ServiceRouter, splitters: seq<ServiceSplitter>)
    requires route.HTTPRoute? && RuleWeightsInRange(route)
    ensures router == RouterOf(route) && splitters == SplittersOf(route)
  {
    var routes: seq<ServiceRoute> := [];
    splitters := [];
    for idx := 0 to |route.rules|
      invariant routes == RoutesBelow(route.name, route.namespace, route.rules, idx)
      invariant splitters == SplittersBelow(route.name, route.namespace, route.meta, route.rules, idx)
    {
      BelowOneMore(route, idx);
      var more, splitter := RuleEntries(route, idx);
      splitters := splitters + Optional(splitter);
      routes := routes + more;
    }
    router := ServiceRouter(route.name, route.namespace, route.meta, routes);
  }

  method RuleServiceRoutes(matches: seq<HTTPMatch>, d: Destination) returns (routes: seq<ServiceRoute>)
    ensures routes == RoutesTo(matches, d)
  {
    if |matches| == 0 {
      return [ServiceRoute(None, d)];
    }
    routes := [];
    for i := 0 to |matches|
      invariant |routes| == i && forall k | 0 <= k < i ::
                  routes[k] == ServiceRoute(Some(TranslatedMatch(matches[k])), d)
    {
      var t := TranslateMatch(matches[i]);
      routes := routes + [ServiceRoute(Some(t), d)];
    }
  }

  // ----- Consolidating the routes of a listener per hostname ----------------------------------------

  function Entry(m: map<string, seq<Candidate>>, host: string): seq<Candidate> {
    if host in m then m[host] else []
  }

  class RouteConsolidator {
    var matchesByHostname: map<string, seq<Candidate>>

    constructor ()
      ensures matchesByHostname == map[]
    {
      matchesByHostname := map[];
    }

    /** Every mention of a host appends all candidates of the route to that host's list. */
    method Add(route: ResolvedRoute)
      requires route.HTTPRoute?
      modifies this
      ensures matchesByHostname == WithMentions(old(matchesByHostname), route.hostnames,
                                                RulesCandidates(route.rules, |route.rules|))
    {
      ghost var before, cs := matchesByHostname, RulesCandidates(route.rules, |route.rules|);
      for i := 0 to |route.hostnames|
        invariant matchesByHostname == WithMentions(before, route.hostnames[..i], cs)
      {
        var host := route.hostnames[i];
        assert route.hostnames[..i + 1][..i] == route.hostnames[..i];
        var matches := FlattenRules(Entry(matchesByHostname, host), route);
        matchesByHostname := matchesByHostname[host := matches];
      }
      assert route.hostnames[..|route.hostnames|] == route.hostnames;
    }
  }

  function WithMentions(m: map<string, seq<Candidate>>, hosts: seq<string>, cs: seq<Candidate>)
    : map<string, seq<Candidate>>
  {
    if hosts == [] then m
    else
      var m', host := WithMentions(m, hosts[..|hosts| - 1], cs), hosts[|hosts| - 1];
      m'[host := Entry(m', host) + cs]
  }

  lemma {:induction false} OneMoreMention(before: seq<Candidate>, cs: seq<Candidate>, n: nat)
    ensures (before + Repeat(cs, n)) + cs == before + Repeat(cs, n + 1)
  {}

  lemma {:induction false} WithMentionsEntry(m: map<string, seq<Candidate>>, hosts: seq<string>, cs: seq<Candidate>,
                                             h: string)
    ensures h in WithMentions(m, hosts, cs) <==> h in m || h in hosts
    ensures Entry(WithMentions(m, hosts, cs), h) == Entry(m, h) + Repeat(cs, Occurrences(hosts, h))
  {
    if hosts == [] {
      assert Entry(m, h) + [] == Entry(m, h);
    } else {
      var init, host := hosts[..|hosts| - 1], hosts[|hosts| - 1];
      WithMentionsEntry(m, init, cs, h);
      assert h in hosts <==> h in init || h == host;
      var n := Occurrences(init, h);
      if h == host {
        OneMoreMention(Entry(m, h), cs, n);
        assert Occurrences(hosts, h) == n + 1;
      } else {
        assert Occurrences(hosts, h) == n;
      }
    }
  }

  /** Appends one candidate per match of each rule; a rule without matches gets the default one. */
  method FlattenRules(start: seq<Candidate>, route: ResolvedRoute) returns (matches: seq<Candidate>)
    requires route.HTTPRoute?
    ensures matches == start + RulesCandidates(route.rules, |route.rules|)
  {
    var rules := route.rules;
    matches := start;
    for i := 0 to |rules|
      invariant matches == start + RulesCandidates(rules, i)
    {
      ghost var before := RulesCandidates(rules, i);
      matches := FlattenRule(matches, rules[i]);
      assert (start + before) + RuleCandidates(rules[i]) == start + (before + RuleCandidates(rules[i]));
    }
  }

  method FlattenRule(start: seq<Candidate>, rule: HTTPRouteRule) returns (matches: seq<Candidate>)
    ensures matches == start + RuleCandidates(rule)
  {
    var ms := if |rule.matches| == 0 then [MATCH_ALL] else rule.matches;
    ghost var all := RuleCandidates(rule);
    matches := start;
    for j := 0 to |ms|
      invariant matches == start + all[..j]
    {
      assert all[..j + 1] == all[..j] + [all[j]];
      matches := matches + [Candidate(ms[j], rule.filters, rule.services)];
    }
    assert all[..|ms|] == all;
  }
}
