// Compiling HTTP routes to a service-router and splitters (internal/adapters/consul/http.go):
// the functions below say what is emitted, the lemmas that it means what the routes mean.

module HttpCompile {
  import opened Wrappers
  import opened Core
  import opened ConsulEntries
  import opened HttpMeaning
  import opened Naming

  // ----- Translating matches --------------------------------------------------------------------

  function TranslatedHeader(h: HTTPHeaderMatch): Option<MatchHeader> {
    match h.kind
    case HeaderNone => None
    case HeaderExact => Some(MatchHeader(h.name, false, h.value, "", "", ""))
    case HeaderPrefix => Some(MatchHeader(h.name, false, "", h.value, "", ""))
    case HeaderSuffix => Some(MatchHeader(h.name, false, "", "", h.value, ""))
    case HeaderPresent => Some(MatchHeader(h.name, true, "", "", "", ""))
    case HeaderRegex => Some(MatchHeader(h.name, false, "", "", "", h.value))
  }

  function TranslatedQuery(q: HTTPQueryMatch): Option<MatchQueryParam> {
    match q.kind
    case QueryNone => None
    case QueryExact => Some(MatchQueryParam(q.name, false, q.value, ""))
    case QueryPresent => Some(MatchQueryParam(q.name, true, "", ""))
    case QueryRegex => Some(MatchQueryParam(q.name, false, "", q.value))
  }

  function Optional<T>(o: Option<T>): seq<T> {
    if o.Some? then [o.value] else []
  }

  function TranslatedHeaders(hs: seq<HTTPHeaderMatch>): seq<MatchHeader> {
    if hs == [] then [] else TranslatedHeaders(hs[..|hs| - 1]) + Optional(TranslatedHeader(hs[|hs| - 1]))
  }

  function TranslatedQueries(qs: seq<HTTPQueryMatch>): seq<MatchQueryParam> {
    if qs == [] then [] else TranslatedQueries(qs[..|qs| - 1]) + Optional(TranslatedQuery(qs[|qs| - 1]))
  }

  function TranslatedMatch(m: HTTPMatch): ServiceRouteMatch {
    ServiceRouteMatch(
      if m.path.kind.PathExact? then m.path.value else "",
      if m.path.kind.PathPrefix? then m.path.value else "",
      if m.path.kind.PathRegex? then m.path.value else "",
      TranslatedHeaders(m.headers), TranslatedQueries(m.query),
      if m.httpMethod.MethodNone? then [] else [MethodName(m.httpMethod)])
  }

  ghost predicate AllHeaders(hs: seq<MatchHeader>, req: Request, re: Regex) {
    forall i | 0 <= i < |hs| :: ConsulHeaderMatches(hs[i], req, re)
  }

  ghost predicate AllQueries(qs: seq<MatchQueryParam>, req: Request, re: Regex) {
    forall i | 0 <= i < |qs| :: ConsulQueryMatches(qs[i], req, re)
  }

  /** A comparison with the empty text, which Consul takes for a field that is not set. */
  predicate BlankHeader(h: HTTPHeaderMatch) { h.kind !in {HeaderNone, HeaderPresent} && h.value == "" }

  predicate BlankQuery(q: HTTPQueryMatch) { q.kind !in {QueryNone, QueryPresent} && q.value == "" }

  predicate BlankPath(p: HTTPPathMatch) { !p.kind.PathNone? && p.value == "" }

  /** A path match as Consul takes it: a prefix is compared character by character. */
  predicate LenientPath(p: HTTPPathMatch, req: Request, re: Regex) {
    BlankPath(p) || (if p.kind.PathPrefix? then HasPrefix(req.path, p.value) else PathMatches(p, req, re))
  }

  ghost predicate LenientHeaders(hs: seq<HTTPHeaderMatch>, req: Request, re: Regex) {
    forall i | 0 <= i < |hs| :: BlankHeader(hs[i]) || HeaderMatches(hs[i], req, re)
  }

  ghost predicate LenientQueries(qs: seq<HTTPQueryMatch>, req: Request, re: Regex) {
    forall i | 0 <= i < |qs| :: BlankQuery(qs[i]) || QueryMatches(qs[i], req, re)
  }

  ghost predicate LenientMatch(m: HTTPMatch, req: Request, re: Regex) {
    && LenientPath(m.path, req, re) && LenientHeaders(m.headers, req, re) && LenientQueries(m.query, req, re)
    && (m.httpMethod.MethodNone? || req.httpMethod == MethodName(m.httpMethod))
  }

  lemma {:induction false} HeaderTranslated(h: HTTPHeaderMatch, req: Request, re: Regex)
    ensures AllHeaders(Optional(TranslatedHeader(h)), req, re) <==> BlankHeader(h) || HeaderMatches(h, req, re)
  {
    var t := TranslatedHeader(h);
    if t.Some? { assert Optional(t)[0] == t.value; }
  }

  lemma {:induction false} AllHeadersJoin(ts: seq<MatchHeader>, us: seq<MatchHeader>, req: Request, re: Regex)
    ensures AllHeaders(ts + us, req, re) <==> AllHeaders(ts, req, re) && AllHeaders(us, req, re)
  {
    assert forall i | 0 <= i < |ts| :: (ts + us)[i] == ts[i];
    assert forall i | 0 <= i < |us| :: (ts + us)[|ts| + i] == us[i];
  }

  lemma {:induction false} HeadersTranslated(hs: seq<HTTPHeaderMatch>, req: Request, re: Regex)
    ensures AllHeaders(TranslatedHeaders(hs), req, re) <==> LenientHeaders(hs, req, re)
  {
    if hs != [] {
      var init, last := hs[..|hs| - 1], hs[|hs| - 1];
      HeadersTranslated(init, req, re);
      assert forall i | 0 <= i < |init| :: hs[i] == init[i];
      AllHeadersJoin(TranslatedHeaders(init), Optional(TranslatedHeader(last)), req, re);
      HeaderTranslated(last, req, re);
    }
  }

  lemma {:induction false} QueryTranslated(q: HTTPQueryMatch, req: Request, re: Regex)
    ensures AllQueries(Optional(TranslatedQuery(q)), req, re) <==> BlankQuery(q) || QueryMatches(q, req, re)
  {
    var t := TranslatedQuery(q);
    if t.Some? { assert Optional(t)[0] == t.value; }
  }

  lemma {:induction false} AllQueriesJoin(ts: seq<MatchQueryParam>, us: seq<MatchQueryParam>, req: Request, re: Regex)
    ensures AllQueries(ts + us, req, re) <==> AllQueries(ts, req, re) && AllQueries(us, req, re)
  {
    assert forall i | 0 <= i < |ts| :: (ts + us)[i] == ts[i];
    assert forall i | 0 <= i < |us| :: (ts + us)[|ts| + i] == us[i];
  }

  lemma {:induction false} QueriesTranslated(qs: seq<HTTPQueryMatch>, req: Request, re: Regex)
    ensures AllQueries(TranslatedQueries(qs), req, re) <==> LenientQueries(qs, req, re)
  {
    if qs != [] {
      var init, last := qs[..|qs| - 1], qs[|qs| - 1];
      QueriesTranslated(init, req, re);
      assert forall i | 0 <= i < |init| :: qs[i] == init[i];
      AllQueriesJoin(TranslatedQueries(init), Optional(TranslatedQuery(last)), req, re);
      QueryTranslated(last, req, re);
    }
  }

  /** The reading of a match that Consul has once it is translated. */
  function ConsulReading(req: Request, re: Regex): Reading { m => ConsulMatches(TranslatedMatch(m), req, re) }

  /** The translated match accepts the requests that the route's match accepts when read leniently. */
  lemma {:induction false} TranslationIsLenient(m: HTTPMatch, req: Request, re: Regex)
    ensures ConsulReading(req, re)(m) <==> LenientMatch(m, req, re)
  {
    HeadersTranslated(m.headers, req, re);
    QueriesTranslated(m.query, req, re);
    var t := TranslatedMatch(m);
    assert ConsulMatches(t, req, re) <==>
           LenientPath(m.path, req, re) && AllHeaders(t.headers, req, re) && AllQueries(t.queryParams, req, re) &&
           (m.httpMethod.MethodNone? || req.httpMethod == MethodName(m.httpMethod));
  }

  // ----- Where the two readings differ ------------------------------------------------------------

  predicate EndsInSlash(s: string) { s != "" && s[|s| - 1] == '/' }

  /** The path ends where the prefix has its trailing slash. */
  predicate LacksSlash(p: HTTPPathMatch, path: string) {
    p.kind.PathPrefix? && EndsInSlash(p.value) && path == Trimmed(p.value)
  }

  /** The prefix ends in the middle of an element of the path. */
  predicate SplitsElement(p: HTTPPathMatch, path: string) {
    && p.kind.PathPrefix? && p.value != "" && !EndsInSlash(p.value)
    && HasPrefix(path, p.value) && |p.value| < |path| && path[|p.value|] != '/'
  }

  /** Some comparison with the empty text does not hold of the request. */
  ghost predicate BlankFails(m: HTTPMatch, req: Request, re: Regex) {
    || (BlankPath(m.path) && !PathMatches(m.path, req, re))
    || (exists i | 0 <= i < |m.headers| :: BlankHeader(m.headers[i]) && !HeaderMatches(m.headers[i], req, re))
    || (exists i | 0 <= i < |m.query| :: BlankQuery(m.query[i]) && !QueryMatches(m.query[i], req, re))
  }

  lemma {:induction false} PathsReadAlikeIff(p: HTTPPathMatch, req: Request, re: Regex)
    ensures PathMatches(p, req, re) && !LenientPath(p, req, re) <==> LacksSlash(p, req.path)
    ensures LenientPath(p, req, re) && !PathMatches(p, req, re) <==>
            SplitsElement(p, req.path) || (BlankPath(p) && !PathMatches(p, req, re))
  {
    if p.kind.PathPrefix? && p.value != "" {
      var t, path := Trimmed(p.value), req.path;
      if EndsInSlash(p.value) {
        assert t + "/" == p.value;
      } else {
        assert HasPrefix(path, p.value + "/") <==>
               HasPrefix(path, p.value) && |p.value| < |path| && path[|p.value|] == '/';
        assert path == p.value <==> HasPrefix(path, p.value) && |path| == |p.value|;
      }
    }
  }

  /**
   * The translated match differs from the route's exactly on these requests: those for a prefix less its
   * trailing slash are lost, and those whose path continues the last element of a prefix, or that fail a
   * comparison with the empty text, are let in.
   */
  lemma {:induction false} ReadingsDifferIff(m: HTTPMatch, req: Request, re: Regex)
    ensures Matches(m, req, re) && !ConsulReading(req, re)(m) <==> Matches(m, req, re) && LacksSlash(m.path, req.path)
    ensures ConsulReading(req, re)(m) && !Matches(m, req, re) <==>
            ConsulReading(req, re)(m) && (SplitsElement(m.path, req.path) || BlankFails(m, req, re))
  {
    TranslationIsLenient(m, req, re);
    PathsReadAlikeIff(m.path, req, re);
  }

  /** Elsewhere the translated match accepts exactly the requests that the route's match accepts. */
  lemma {:induction false} TranslationPreservesMatching(m: HTTPMatch, req: Request, re: Regex)
    ensures (ConsulReading(req, re)(m) <==> Matches(m, req, re)) <==>
            !(Matches(m, req, re) && LacksSlash(m.path, req.path)) &&
            !(LenientMatch(m, req, re) && (SplitsElement(m.path, req.path) || BlankFails(m, req, re)))
  {
    TranslationIsLenient(m, req, re);
    ReadingsDifferIff(m, req, re);
  }

  // ----- Translating rules ------------------------------------------------------------------------

  lemma {:induction false} ModifiersOfBoth(a: seq<HTTPFilter>, b: seq<HTTPFilter>)
    ensures Modifiers(a + b) == Merged(Modifiers(a), Modifiers(b))
    decreases |b|
  {
    if b == [] {
      assert a + b == a;
      var m := Modifiers(a);
      assert m.add + map[] == m.add && m.put + map[] == m.put && m.remove + [] == m.remove;
    } else {
      var init, last := b[..|b| - 1], b[|b| - 1];
      ModifiersOfBoth(a, init);
      assert (a + b)[..|a + b| - 1] == a + init;
      var ma, mi := Modifiers(a), Modifiers(init);
      if last.HeaderFilter? {
        assert (ma.add + mi.add) + last.header.addHeaders == ma.add + (mi.add + last.header.addHeaders);
        assert (ma.put + mi.put) + last.header.setHeaders == ma.put + (mi.put + last.header.setHeaders);
        assert (ma.remove + mi.remove) + last.header.removeHeaders ==
               ma.remove + (mi.remove + last.header.removeHeaders);
      }
    }
  }

  /** The destination of rule idx: its only service, or a virtual service to split. */
  function DestinationOf(name: string, namespace: string, idx: nat, rule: HTTPRouteRule): Destination {
    if |rule.services| == 1 then
      Destination(rule.services[0].service, PrefixRewrite(rule.filters),
                  Merged(Modifiers(rule.filters), Modifiers(rule.services[0].filters)))
    else
      Destination(ResolvedService(namespace, VirtualName(name, idx)), PrefixRewrite(rule.filters),
                  Modifiers(rule.filters))
  }

  function SplitOf(s: HTTPService, total: int): ServiceSplit
    requires total != 0
  {
    ServiceSplit(s.weight as real / total as real * 100.0, s.service, Modifiers(s.filters))
  }

  function SplitsOf(services: seq<HTTPService>): (splits: seq<ServiceSplit>)
    requires WeightsInRange(services)
  {
    WeightedSum(services);
    var ws, total := Weighted(services), TotalWeight(services);
    seq(|ws|, i requires 0 <= i < |ws| => SplitOf(ws[i], total))
  }

  /** The splitter of rule idx, if it has several services of which some carry weight. */
  function SplitterOf(name: string, namespace: string, meta: Meta, idx: nat,
                      rule: HTTPRouteRule): Option<ServiceSplitter>
    requires WeightsInRange(rule.services)
  {
    if |rule.services| == 1 || SplitsOf(rule.services) == [] then None
    else Some(ServiceSplitter(VirtualName(name, idx), namespace, meta, SplitsOf(rule.services)))
  }

  /** A route per match, or one route without a match when there is none. */
  function RoutesTo(matches: seq<HTTPMatch>, d: Destination): seq<ServiceRoute> {
    if matches == [] then [ServiceRoute(None, d)]
    else seq(|matches|, i requires 0 <= i < |matches| => ServiceRoute(Some(TranslatedMatch(matches[i])), d))
  }

  function RuleRoutes(name: string, namespace: string, idx: nat, rule: HTTPRouteRule): seq<ServiceRoute> {
    RoutesTo(rule.matches, DestinationOf(name, namespace, idx, rule))
  }

  function RoutesBelow(name: string, namespace: string, rules: seq<HTTPRouteRule>, n: nat): seq<ServiceRoute>
    requires n <= |rules|
  {
    if n == 0 then [] else RoutesBelow(name, namespace, rules, n - 1) + RuleRoutes(name, namespace, n - 1, rules[n - 1])
  }

  function SplittersBelow(name: string, namespace: string, meta: Meta, rules: seq<HTTPRouteRule>,
                          n: nat): seq<ServiceSplitter>
    requires n <= |rules| && forall i | 0 <= i < |rules| :: WeightsInRange(rules[i].services)
  {
    if n == 0 then []
    else SplittersBelow(name, namespace, meta, rules, n - 1) +
         Optional(SplitterOf(name, namespace, meta, n - 1, rules[n - 1]))
  }

  predicate RuleWeightsInRange(route: ResolvedRoute) {
    route.HTTPRoute? ==> forall i | 0 <= i < |route.rules| :: WeightsInRange(route.rules[i].services)
  }

  function RouterOf(route: ResolvedRoute): ServiceRouter
    requires route.HTTPRoute?
  {
    ServiceRouter(route.name, route.namespace, route.meta,
                  RoutesBelow(route.name, route.namespace, route.rules, |route.rules|))
  }

  function SplittersOf(route: ResolvedRoute): seq<ServiceSplitter>
    requires route.HTTPRoute? && RuleWeightsInRange(route)
  {
    SplittersBelow(route.name, route.namespace, route.meta, route.rules, |route.rules|)
  }

  // ----- Weights ----------------------------------------------------------------------------------

  function SumOfWeights(splits: seq<ServiceSplit>): real {
    if splits == [] then 0.0 else SumOfWeights(splits[..|splits| - 1]) + splits[|splits| - 1].weight
  }

  lemma {:induction false} SplitIsProportional(s: HTTPService, total: int)
    requires total != 0
    ensures SplitOf(s, total).weight * total as real == s.weight as real * 100.0
  {
    var w, t := s.weight as real, total as real;
    assert w / t * t == w;
    assert (w / t * 100.0) * t == (w / t * t) * 100.0;
  }

  lemma {:induction false} PercentagesAddUp(ws: seq<HTTPService>, total: int, splits: seq<ServiceSplit>)
    requires total != 0 && |splits| == |ws|
    requires forall i | 0 <= i < |ws| :: splits[i] == SplitOf(ws[i], total)
    ensures SumOfWeights(splits) * total as real == TotalWeight(ws) as real * 100.0
  {
    if ws != [] {
      var n := |ws| - 1;
      PercentagesAddUp(ws[..n], total, splits[..n]);
      SplitIsProportional(ws[n], total);
      Distribute(SumOfWeights(splits[..n]), splits[n].weight, total as real);
    }
  }

  lemma {:induction false} Distribute(x: real, y: real, t: real)
    ensures (x + y) * t == x * t + y * t
  {}

  lemma {:induction false} Cancel(x: real, y: real, t: real)
    requires t != 0.0 && x * t == y * t
    ensures x == y
  {}

  lemma {:induction false} WeightedKeepsTotal(services: seq<HTTPService>)
    ensures TotalWeight(Weighted(services)) == TotalWeight(services)
    ensures forall i | 0 <= i < |Weighted(services)| ::
              Weighted(services)[i].weight != 0 && Weighted(services)[i] in services
  {
    if services != [] {
      var init, last := services[..|services| - 1], services[|services| - 1];
      WeightedKeepsTotal(init);
      if last.weight != 0 {
        assert (Weighted(init) + [last])[..|Weighted(init)|] == Weighted(init);
      } else {
        assert Weighted(services) == Weighted(init);
      }
    }
  }

  /** There are splits exactly when some service carries weight. */
  lemma {:induction false} SplitsExistIffSomeWeight(services: seq<HTTPService>)
    requires WeightsInRange(services)
    ensures SplitsOf(services) != [] <==> exists i | 0 <= i < |services| :: services[i].weight > 0
  {
    WeightedSum(services);
    WeightedKeepsTotal(services);
    if TotalWeight(services) > 0 {
      assert Weighted(services)[0] in services;
    } else {
      AllWeightless(services);
    }
  }

  /** Splits keep the order of the services with weight, and their proportion. */
  lemma {:induction false} SplitsKeepOrderAndProportion(services: seq<HTTPService>, i: nat)
    requires WeightsInRange(services) && i < |Weighted(services)|
    ensures |SplitsOf(services)| == |Weighted(services)|
    ensures SplitsOf(services)[i].service == Weighted(services)[i].service
    ensures SplitsOf(services)[i].weight * TotalWeight(services) as real == Weighted(services)[i].weight as real * 100.0
  {
    WeightedSum(services);
    SplitIsProportional(Weighted(services)[i], TotalWeight(services));
  }

  /** The splits share out exactly 100 percent. */
  lemma {:induction false} SplitsShareEverything(services: seq<HTTPService>)
    requires WeightsInRange(services) && SplitsOf(services) != []
    ensures SumOfWeights(SplitsOf(services)) == 100.0
  {
    WeightedSum(services);
    WeightedKeepsTotal(services);
    AddUpToHundred(Weighted(services), TotalWeight(services), SplitsOf(services));
  }

  lemma {:induction false} AddUpToHundred(ws: seq<HTTPService>, total: int, splits: seq<ServiceSplit>)
    requires total != 0 && total == TotalWeight(ws) && |splits| == |ws|
    requires forall i | 0 <= i < |ws| :: splits[i] == SplitOf(ws[i], total)
    ensures SumOfWeights(splits) == 100.0
  {
    PercentagesAddUp(ws, total, splits);
    Cancel(SumOfWeights(splits), 100.0, total as real);
  }

  lemma {:induction false} AllWeightless(services: seq<HTTPService>)
    requires forall i | 0 <= i < |services| :: services[i].weight >= 0
    requires TotalWeight(services) <= 0
    ensures forall i | 0 <= i < |services| :: services[i].weight == 0
  {
    if services != [] {
      WeightedSum(services[..|services| - 1]);
      AllWeightless(services[..|services| - 1]);
    }
  }

  function WrapInt32(x: int): int {
    (x + 0x8000_0000) % 0x1_0000_0000 - 0x8000_0000
  }

  lemma {:induction false} TotalBounded(services: seq<HTTPService>)
    requires forall i | 0 <= i < |services| :: 0 <= services[i].weight <= 1_000_000
    ensures 0 <= TotalWeight(services) <= 1_000_000 * |services|
  {
    if services != [] {
      TotalBounded(services[..|services| - 1]);
    }
  }

  /** Within the limits the 32-bit total never wraps around. */
  lemma {:induction false} TotalFitsInt32(services: seq<HTTPService>)
    requires WeightsInRange(services)
    ensures WrapInt32(TotalWeight(services)) == TotalWeight(services)
  {
    TotalBounded(services);
  }

  lemma {:induction false} UniformTotal(s: HTTPService, n: nat)
    ensures TotalWeight(seq(n, _ => s)) == n * s.weight
  {
    if n > 0 {
      var services := seq(n, _ => s);
      assert services[..n - 1] == seq(n - 1, _ => s);
      UniformTotal(s, n - 1);
    }
  }

  /** One service more than the limit, all of the largest weight, and the total turns negative. */
  lemma {:induction false} LimitOnServicesIsTight(s: HTTPService)
    requires s.weight == 1_000_000
    ensures WrapInt32(TotalWeight(seq(2148, _ => s))) < 0
  {
    UniformTotal(s, 2148);
  }
}
