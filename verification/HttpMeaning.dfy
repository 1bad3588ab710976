// What HTTP routes mean to a request, and what the compiled Consul entries mean to it. The first
// half is the reading of the Gateway API: path prefixes match element by element, backends share by
// weight, and of the rules that match the longest path decides, then most headers, then most query
// parameters, then the earliest. The second half is Consul's reading of a service-router and its
// splitters. Neither mentions the translation between them.

module HttpMeaning {
  import opened Wrappers
  import opened Core
  import opened ConsulEntries

  datatype Request = Request(path: string, httpMethod: string, headers: map<string, string>, query: map<string, string>)

  /** Decides whether a regular expression matches a text; any engine will do. */
  type Regex = (string, string) -> bool

  predicate HasPrefix(s: string, p: string) { p <= s }

  predicate HasSuffix(s: string, p: string) { |p| <= |s| && s[|s| - |p|..] == p }

  // ----- Matches of the Gateway API -------------------------------------------------------------

  /** The prefix without its trailing slash, which the API ignores. */
  function Trimmed(prefix: string): string {
    if prefix != "" && prefix[|prefix| - 1] == '/' then prefix[..|prefix| - 1] else prefix
  }

  /** The elements of the prefix are the first elements of the path: "/abc" covers "/abc/d" but not "/abcd". */
  predicate ElementPrefix(path: string, prefix: string) {
    path == Trimmed(prefix) || HasPrefix(path, Trimmed(prefix) + "/")
  }

  predicate PathMatches(p: HTTPPathMatch, req: Request, re: Regex) {
    match p.kind
    case PathNone => true
    case PathExact => req.path == p.value
    case PathPrefix => ElementPrefix(req.path, p.value)
    case PathRegex => re(p.value, req.path)
  }

  predicate HeaderMatches(h: HTTPHeaderMatch, req: Request, re: Regex) {
    h.kind.HeaderNone? ||
    (h.name in req.headers &&
     var v := req.headers[h.name];
     match h.kind
     case HeaderExact => v == h.value
     case HeaderPrefix => HasPrefix(v, h.value)
     case HeaderSuffix => HasSuffix(v, h.value)
     case HeaderRegex => re(h.value, v)
     case _ => true)
  }

  predicate QueryMatches(q: HTTPQueryMatch, req: Request, re: Regex) {
    q.kind.QueryNone? ||
    (q.name in req.query &&
     var v := req.query[q.name];
     match q.kind
     case QueryExact => v == q.value
     case QueryRegex => re(q.value, v)
     case _ => true)
  }

  function MethodName(m: HTTPMethod): string {
    match m
    case MethodNone => ""
    case Connect => "CONNECT"
    case Delete => "DELETE"
    case Get => "GET"
    case Head => "HEAD"
    case Options => "OPTIONS"
    case Patch => "PATCH"
    case Post => "POST"
    case Put => "PUT"
    case Trace => "TRACE"
  }

  predicate Matches(m: HTTPMatch, req: Request, re: Regex) {
    && PathMatches(m.path, req, re)
    && (forall i | 0 <= i < |m.headers| :: HeaderMatches(m.headers[i], req, re))
    && (forall i | 0 <= i < |m.query| :: QueryMatches(m.query[i], req, re))
    && (m.httpMethod.MethodNone? || req.httpMethod == MethodName(m.httpMethod))
  }

  /** A way of reading matches: which of them a given request meets. */
  type Reading = HTTPMatch -> bool

  /** The reading of the Gateway API. */
  function ApiReading(req: Request, re: Regex): Reading { m => Matches(m, req, re) }

  // ----- Choosing a rule --------------------------------------------------------------------------

  /** One match of one rule, with what the rule does. */
  datatype Candidate = Candidate(httpMatch: HTTPMatch, filters: seq<HTTPFilter>, services: seq<HTTPService>)

  const MATCH_ALL := HTTPMatch(HTTPPathMatch(PathPrefix, "/"), [], [], MethodNone)

  function RuleMatches(rule: HTTPRouteRule): seq<HTTPMatch> {
    if rule.matches == [] then [MATCH_ALL] else rule.matches
  }

  function RuleCandidates(rule: HTTPRouteRule): (cs: seq<Candidate>) {
    var ms := RuleMatches(rule);
    seq(|ms|, i requires 0 <= i < |ms| => Candidate(ms[i], rule.filters, rule.services))
  }

  /** The candidates of the first n rules, in order. */
  function RulesCandidates(rules: seq<HTTPRouteRule>, n: nat): seq<Candidate>
    requires n <= |rules|
  {
    if n == 0 then [] else RulesCandidates(rules, n - 1) + RuleCandidates(rules[n - 1])
  }

  /** All candidates for host: those of every HTTP route that lists it, in order of the routes. */
  function Candidates(routes: seq<ResolvedRoute>, host: string): seq<Candidate> {
    if routes == [] then []
    else
      var last := routes[|routes| - 1];
      Candidates(routes[..|routes| - 1], host) +
      (if last.HTTPRoute? && host in last.hostnames then RulesCandidates(last.rules, |last.rules|) else [])
  }

  /** a takes precedence over b on the number of path characters, headers and query parameters. */
  predicate Precedes(a: HTTPMatch, b: HTTPMatch) {
    if |a.path.value| != |b.path.value| then |a.path.value| > |b.path.value|
    else if |a.headers| != |b.headers| then |a.headers| > |b.headers|
    else |a.query| > |b.query|
  }

  /** Candidate k is the one that decides: it matches, and no other match precedes it or ties with it earlier. */
  ghost predicate Chosen(cs: seq<Candidate>, p: Reading, k: nat) {
    && k < |cs|
    && p(cs[k].httpMatch)
    && forall j | 0 <= j < |cs| && p(cs[j].httpMatch) ::
         !Precedes(cs[j].httpMatch, cs[k].httpMatch) && (j < k ==> Precedes(cs[k].httpMatch, cs[j].httpMatch))
  }

  lemma {:induction false} ChosenIsUnique(cs: seq<Candidate>, p: Reading, j: nat, k: nat)
    requires Chosen(cs, p, j) && Chosen(cs, p, k)
    ensures j == k
  {}

  // ----- What a rule does -------------------------------------------------------------------------

  /** A percentage of the requests, and all that is done to their headers on the way to the service. */
  datatype Share = Share(service: ResolvedService, percent: real, headers: HeaderModifiers)

  datatype Outcome =
    | NotRouted
    | Routed(shares: seq<Share>, prefixRewrite: string)

  /** Of several header filters, the last that mentions a header decides what is added or set. */
  function Modifiers(filters: seq<HTTPFilter>): HeaderModifiers {
    if filters == [] then NO_MODIFIERS
    else
      var m, f := Modifiers(filters[..|filters| - 1]), filters[|filters| - 1];
      if f.HeaderFilter?
      then HeaderModifiers(m.add + f.header.addHeaders, m.put + f.header.setHeaders, m.remove + f.header.removeHeaders)
      else m
  }

  /** The first filter that replaces the matched prefix decides the rewrite. */
  function PrefixRewrite(filters: seq<HTTPFilter>): string {
    if filters == [] then ""
    else if filters[0].URLRewriteFilter? && filters[0].replacesPrefix then filters[0].replacePrefixMatch
    else PrefixRewrite(filters[1..])
  }

  function TotalWeight(services: seq<HTTPService>): int {
    if services == [] then 0 else TotalWeight(services[..|services| - 1]) + services[|services| - 1].weight
  }

  /** The limits that the Gateway API's validation puts on weights keep their sum in 32 bits. */
  predicate WeightsInRange(services: seq<HTTPService>) {
    |services| <= 2147 && forall i | 0 <= i < |services| :: 0 <= services[i].weight <= 1_000_000
  }

  function Weighted(services: seq<HTTPService>): seq<HTTPService> {
    if services == [] then []
    else
      var last := services[|services| - 1];
      Weighted(services[..|services| - 1]) + (if last.weight == 0 then [] else [last])
  }

  /** The filters of the rule apply first, then those of the service. */
  function ShareOf(filters: seq<HTTPFilter>, s: HTTPService, total: int): Share
    requires total != 0
  {
    Share(s.service, s.weight as real / total as real * 100.0, Modifiers(filters + s.filters))
  }

  lemma {:induction false} WeightedSum(services: seq<HTTPService>)
    requires forall i | 0 <= i < |services| :: services[i].weight >= 0
    ensures TotalWeight(services) >= 0
    ensures Weighted(services) != [] <==> TotalWeight(services) > 0
  {
    if services != [] {
      WeightedSum(services[..|services| - 1]);
    }
  }

  /** Backends share the requests in proportion to their weights; one of weight zero receives none. */
  function RuleShares(filters: seq<HTTPFilter>, services: seq<HTTPService>): seq<Share>
    requires WeightsInRange(services)
  {
    WeightedSum(services);
    var ws, total := Weighted(services), TotalWeight(services);
    seq(|ws|, i requires 0 <= i < |ws| => ShareOf(filters, ws[i], total))
  }

  function RuleOutcome(c: Candidate): Outcome
    requires WeightsInRange(c.services)
  {
    Routed(RuleShares(c.filters, c.services), PrefixRewrite(c.filters))
  }

  /** What should happen to a request for host, given the routes of a listener. */
  ghost function Reference(routes: seq<ResolvedRoute>, host: string, req: Request, re: Regex): Outcome
    requires forall c | c in Candidates(routes, host) :: WeightsInRange(c.services)
  {
    if k: nat :| Chosen(Candidates(routes, host), ApiReading(req, re), k) then RuleOutcome(Candidates(routes, host)[k])
    else NotRouted
  }

  // ----- Consul's reading of a service-router -------------------------------------------------------

  predicate ConsulHeaderMatches(h: MatchHeader, req: Request, re: Regex) {
    if h.exact != "" then h.name in req.headers && req.headers[h.name] == h.exact
    else if h.regex != "" then h.name in req.headers && re(h.regex, req.headers[h.name])
    else if h.prefix != "" then h.name in req.headers && HasPrefix(req.headers[h.name], h.prefix)
    else if h.suffix != "" then h.name in req.headers && HasSuffix(req.headers[h.name], h.suffix)
    else h.present ==> h.name in req.headers
  }

  predicate ConsulQueryMatches(q: MatchQueryParam, req: Request, re: Regex) {
    if q.exact != "" then q.name in req.query && req.query[q.name] == q.exact
    else if q.regex != "" then q.name in req.query && re(q.regex, req.query[q.name])
    else q.present ==> q.name in req.query
  }

  predicate ConsulMatches(m: ServiceRouteMatch, req: Request, re: Regex) {
    && (m.pathExact != "" ==> req.path == m.pathExact)
    && (m.pathPrefix != "" ==> HasPrefix(req.path, m.pathPrefix))
    && (m.pathRegex != "" ==> re(m.pathRegex, req.path))
    && (forall i | 0 <= i < |m.headers| :: ConsulHeaderMatches(m.headers[i], req, re))
    && (forall i | 0 <= i < |m.queryParams| :: ConsulQueryMatches(m.queryParams[i], req, re))
    && (m.methods != [] ==> req.httpMethod in m.methods)
  }

  predicate RouteMatches(r: ServiceRoute, req: Request, re: Regex) {
    r.httpMatch.Some? ==> ConsulMatches(r.httpMatch.value, req, re)
  }

  /** A service-router sends a request along the first of its routes that matches. */
  function FirstMatch(routes: seq<ServiceRoute>, req: Request, re: Regex): Option<ServiceRoute> {
    if routes == [] then None
    else if RouteMatches(routes[0], req, re) then Some(routes[0])
    else FirstMatch(routes[1..], req, re)
  }

  predicate IsSplit(s: ResolvedService, splitters: map<string, ServiceSplitter>) {
    s.service in splitters && splitters[s.service].namespace == s.consulNamespace
  }

  /** Both changes made, the second deciding where they disagree. */
  function Merged(a: HeaderModifiers, b: HeaderModifiers): HeaderModifiers {
    HeaderModifiers(a.add + b.add, a.put + b.put, a.remove + b.remove)
  }

  /** A destination with a splitter is divided as the splitter says; any other takes everything. */
  function Follow(d: Destination, splitters: map<string, ServiceSplitter>): seq<Share> {
    if IsSplit(d.service, splitters) then
      var splits := splitters[d.service.service].splits;
      seq(|splits|, i requires 0 <= i < |splits| =>
            Share(splits[i].service, splits[i].weight, Merged(d.requestHeaders, splits[i].requestHeaders)))
    else [Share(d.service, 100.0, d.requestHeaders)]
  }

  function RouterOutcome(router: ServiceRouter, splitters: map<string, ServiceSplitter>, req: Request,
                         re: Regex): Outcome {
    match FirstMatch(router.routes, req, re)
    case None => NotRouted
    case Some(r) => Routed(Follow(r.destination, splitters), r.destination.prefixRewrite)
  }

  // ----- What reaches a running service -------------------------------------------------------------

  /** Keeps the shares whose service has instances to receive them. */
  function Reaching(shares: seq<Share>, hasInstances: ResolvedService -> bool): seq<Share> {
    if shares == [] then []
    else
      var last := shares[|shares| - 1];
      Reaching(shares[..|shares| - 1], hasInstances) + (if hasInstances(last.service) then [last] else [])
  }

  function Delivered(o: Outcome, hasInstances: ResolvedService -> bool): Outcome {
    if o.NotRouted? then o else o.(shares := Reaching(o.shares, hasInstances))
  }
}
