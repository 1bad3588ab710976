// What filters, matches, rules and routes come to, read off their fields alone: none of the definitions
// here is used by the compilation or by the meaning they are held against.

module HttpFields {
  import opened Wrappers
  import opened Core
  import opened ConsulEntries
  import opened HttpMeaning
  import opened Naming
  import opened HttpCompile
  import opened Precedence
  import opened HttpCorrect

  // ----- Header changes -------------------------------------------------------------------------------

  /** Filter i is the last header filter that sets header k. */
  ghost predicate SetsLast(filters: seq<HTTPFilter>, k: string, i: nat) {
    && i < |filters| && filters[i].HeaderFilter? && k in filters[i].header.setHeaders
    && forall j | i < j < |filters| && filters[j].HeaderFilter? :: k !in filters[j].header.setHeaders
  }

  /** Filter i is the last header filter that adds header k. */
  ghost predicate AddsLast(filters: seq<HTTPFilter>, k: string, i: nat) {
    && i < |filters| && filters[i].HeaderFilter? && k in filters[i].header.addHeaders
    && forall j | i < j < |filters| && filters[j].HeaderFilter? :: k !in filters[j].header.addHeaders
  }

  ghost function RemovedBy(f: HTTPFilter): seq<string> { if f.HeaderFilter? then f.header.removeHeaders else [] }

  /** The headers that are removed, filter by filter. */
  ghost function Removals(filters: seq<HTTPFilter>): seq<string> {
    if filters == [] then [] else RemovedBy(filters[0]) + Removals(filters[1..])
  }

  ghost predicate SetAsAsked(put: map<string, string>, filters: seq<HTTPFilter>) {
    && (forall k | k in put :: exists i: nat :: SetsLast(filters, k, i))
    && forall k, i: nat | SetsLast(filters, k, i) :: k in put && put[k] == filters[i].header.setHeaders[k]
  }

  ghost predicate AddedAsAsked(add: map<string, string>, filters: seq<HTTPFilter>) {
    && (forall k | k in add :: exists i: nat :: AddsLast(filters, k, i))
    && forall k, i: nat | AddsLast(filters, k, i) :: k in add && add[k] == filters[i].header.addHeaders[k]
  }

  /**
   * A header is set (or added) exactly if some filter sets (adds) it, to the value of the last that does,
   * and the removals of all filters follow one another.
   */
  ghost predicate ChangesAsAsked(m: HeaderModifiers, filters: seq<HTTPFilter>) {
    SetAsAsked(m.put, filters) && AddedAsAsked(m.add, filters) && m.remove == Removals(filters)
  }

  lemma {:induction false} Associates(a: seq<string>, b: seq<string>, c: seq<string>)
    ensures (a + b) + c == a + (b + c)
  {}

  lemma {:induction false} RemovalsOneMore(filters: seq<HTTPFilter>, f: HTTPFilter)
    ensures Removals(filters + [f]) == Removals(filters) + RemovedBy(f)
  {
    if filters == [] {
      assert filters + [f] == [f] && [f][1..] == [];
      assert Removals([f]) == RemovedBy(f) + Removals([]);
    } else {
      assert (filters + [f])[1..] == filters[1..] + [f];
      RemovalsOneMore(filters[1..], f);
      Associates(RemovedBy(filters[0]), Removals(filters[1..]), RemovedBy(f));
    }
  }

  lemma {:induction false} SetsLastOneMore(filters: seq<HTTPFilter>, f: HTTPFilter, k: string, i: nat)
    ensures SetsLast(filters + [f], k, i) <==>
            if f.HeaderFilter? && k in f.header.setHeaders then i == |filters| else SetsLast(filters, k, i)
  {
    var all := filters + [f];
    assert all[|filters|] == f && forall j | 0 <= j < |filters| :: all[j] == filters[j];
  }

  lemma {:induction false} AddsLastOneMore(filters: seq<HTTPFilter>, f: HTTPFilter, k: string, i: nat)
    ensures AddsLast(filters + [f], k, i) <==>
            if f.HeaderFilter? && k in f.header.addHeaders then i == |filters| else AddsLast(filters, k, i)
  {
    var all := filters + [f];
    assert all[|filters|] == f && forall j | 0 <= j < |filters| :: all[j] == filters[j];
  }

  lemma {:induction false} SetOneMore(put: map<string, string>, filters: seq<HTTPFilter>, f: HTTPFilter)
    requires SetAsAsked(put, filters)
    ensures SetAsAsked(if f.HeaderFilter? then put + f.header.setHeaders else put, filters + [f])
  {
    var put' := if f.HeaderFilter? then put + f.header.setHeaders else put;
    forall k | k in put'
      ensures exists i: nat :: SetsLast(filters + [f], k, i)
    {
      if f.HeaderFilter? && k in f.header.setHeaders {
        SetsLastOneMore(filters, f, k, |filters|);
      } else {
        var i: nat :| SetsLast(filters, k, i);
        SetsLastOneMore(filters, f, k, i);
      }
    }
    forall k, i: nat | SetsLast(filters + [f], k, i)
      ensures k in put' && put'[k] == (filters + [f])[i].header.setHeaders[k]
    {
      SetsLastOneMore(filters, f, k, i);
    }
  }

  lemma {:induction false} AddedOneMore(add: map<string, string>, filters: seq<HTTPFilter>, f: HTTPFilter)
    requires AddedAsAsked(add, filters)
    ensures AddedAsAsked(if f.HeaderFilter? then add + f.header.addHeaders else add, filters + [f])
  {
    var add' := if f.HeaderFilter? then add + f.header.addHeaders else add;
    forall k | k in add'
      ensures exists i: nat :: AddsLast(filters + [f], k, i)
    {
      if f.HeaderFilter? && k in f.header.addHeaders {
        AddsLastOneMore(filters, f, k, |filters|);
      } else {
        var i: nat :| AddsLast(filters, k, i);
        AddsLastOneMore(filters, f, k, i);
      }
    }
    forall k, i: nat | AddsLast(filters + [f], k, i)
      ensures k in add' && add'[k] == (filters + [f])[i].header.addHeaders[k]
    {
      AddsLastOneMore(filters, f, k, i);
    }
  }

  lemma {:induction false} ModifiersAsAsked(filters: seq<HTTPFilter>)
    ensures ChangesAsAsked(Modifiers(filters), filters)
  {
    if filters != [] {
      var init, f := filters[..|filters| - 1], filters[|filters| - 1];
      ModifiersAsAsked(init);
      assert init + [f] == filters;
      SetOneMore(Modifiers(init).put, init, f);
      AddedOneMore(Modifiers(init).add, init, f);
      RemovalsOneMore(init, f);
    }
  }

  // ----- The prefix rewrite ---------------------------------------------------------------------------

  /** Filter i is the first that replaces the matched prefix. */
  ghost predicate RewritesFirst(filters: seq<HTTPFilter>, i: nat) {
    && i < |filters| && filters[i].URLRewriteFilter? && filters[i].replacesPrefix
    && forall j | 0 <= j < i :: !(filters[j].URLRewriteFilter? && filters[j].replacesPrefix)
  }

  ghost predicate RewriteAsAsked(rewrite: string, filters: seq<HTTPFilter>) {
    && (forall i: nat | RewritesFirst(filters, i) :: rewrite == filters[i].replacePrefixMatch)
    && ((forall i: nat :: !RewritesFirst(filters, i)) ==> rewrite == "")
  }

  lemma {:induction false} PrefixRewriteAsAsked(filters: seq<HTTPFilter>)
    ensures RewriteAsAsked(PrefixRewrite(filters), filters)
  {
    if filters != [] {
      if filters[0].URLRewriteFilter? && filters[0].replacesPrefix {
        assert RewritesFirst(filters, 0);
      } else {
        PrefixRewriteAsAsked(filters[1..]);
        forall i: nat
          ensures RewritesFirst(filters[1..], i) <==> RewritesFirst(filters, i + 1)
        {
          assert forall j | 0 <= j < |filters[1..]| :: filters[1..][j] == filters[j + 1];
        }
        forall i: nat | RewritesFirst(filters, i)
          ensures PrefixRewrite(filters) == filters[i].replacePrefixMatch
        {
          assert RewritesFirst(filters[1..], i - 1);
        }
      }
    }
  }

  // ----- Shares -----------------------------------------------------------------------------------------

  /** A share that backend s of rule c receives, with the changes that the rule's and its own filters ask for. */
  ghost predicate ShareAsAsked(share: Share, c: Candidate, s: HTTPService) {
    share.service == s.service && ChangesAsAsked(share.headers, c.filters + s.filters)
  }

  ghost predicate OutcomeAsAsked(o: Outcome, c: Candidate) {
    && o.Routed? && RewriteAsAsked(o.prefixRewrite, c.filters)
    && forall share | share in o.shares :: exists s | s in c.services :: ShareAsAsked(share, c, s)
  }

  lemma {:induction false} WeightedAreServices(services: seq<HTTPService>)
    ensures forall s | s in Weighted(services) :: s in services && s.weight != 0
  {
    if services != [] {
      WeightedAreServices(services[..|services| - 1]);
    }
  }

  /** Whatever a rule prescribes, and whatever it is compiled to, its filters and its backends' ask for. */
  lemma {:induction false} OutcomesAsAsked(c: Candidate)
    requires WeightsInRange(c.services)
    ensures OutcomeAsAsked(RuleOutcome(c), c) && OutcomeAsAsked(CompiledOutcome(c), c)
  {
    PrefixRewriteAsAsked(c.filters);
    WeightedAreServices(c.services);
    WeightedSum(c.services);
    forall share | share in RuleShares(c.filters, c.services)
      ensures exists s | s in c.services :: ShareAsAsked(share, c, s)
    {
      var i :| 0 <= i < |Weighted(c.services)| &&
               share == ShareOf(c.filters, Weighted(c.services)[i], TotalWeight(c.services));
      ModifiersAsAsked(c.filters + Weighted(c.services)[i].filters);
      assert ShareAsAsked(share, c, Weighted(c.services)[i]);
    }
    if |c.services| == 1 {
      ModifiersAsAsked(c.filters + c.services[0].filters);
      assert ShareAsAsked(CompiledOutcome(c).shares[0], c, c.services[0]);
    }
  }

  lemma {:induction false} ReachingAreShares(shares: seq<Share>, hasInstances: ResolvedService -> bool)
    ensures forall share | share in Reaching(shares, hasInstances) :: share in shares && hasInstances(share.service)
  {
    if shares != [] {
      ReachingAreShares(shares[..|shares| - 1], hasInstances);
    }
  }

  /**
   * Whatever the request: if the compiled router routes it at all, it is by a rule of the routes, in the
   * listed order of precedence the first that matches in Consul's reading, and whatever reaches a running
   * backend is one of that rule's backends, with exactly the header changes and the rewrite asked for.
   */
  lemma {:induction false} RouterDeliversAsAsked(routes: seq<ResolvedRoute>, host: string, route: ResolvedRoute,
                                                 splitters: map<string, ServiceSplitter>, req: Request, re: Regex,
                                                 hasInstances: ResolvedService -> bool)
    requires forall c | c in Candidates(routes, host) :: WeightsInRange(c.services) && Unsplit(c, splitters)
    requires Consolidates(route, Collected(routes, host)) && RuleWeightsInRange(route) && Installed(splitters, route)
    requires forall i: nat :: !hasInstances(ResolvedService(route.namespace, VirtualName(route.name, i)))
    ensures var o := Delivered(RouterOutcome(RouterOf(route), splitters, req, re), hasInstances);
            o.Routed? ==> exists k: nat :: Chosen(Candidates(routes, host), ConsulReading(req, re), k) &&
                                           OutcomeAsAsked(o, Candidates(routes, host)[k])
  {
    var cs, p := Candidates(routes, host), ConsulReading(req, re);
    RouterAppliesItsChoice(routes, host, route, splitters, req, re, hasInstances);
    BestIsChosen(cs, p);
    var o := Delivered(RouterOutcome(RouterOf(route), splitters, req, re), hasInstances);
    if o.Routed? {
      var k: nat :| Chosen(cs, p, k) && Best(cs, p) == Some(cs[k]);
      OutcomesAsAsked(cs[k]);
      ReachingAreShares(CompiledOutcome(cs[k]).shares, hasInstances);
      assert OutcomeAsAsked(o, cs[k]);
    }
  }

  // ----- Precedence ----------------------------------------------------------------------------------------

  /** The longer path first, then more headers, then more query parameters; the earlier one on a tie. */
  ghost predicate ComesFirst(a: HTTPMatch, i: int, b: HTTPMatch, j: int) {
    || |a.path.value| > |b.path.value|
    || (|a.path.value| == |b.path.value| &&
        (|a.headers| > |b.headers| ||
         (|a.headers| == |b.headers| && (|a.query| > |b.query| || (|a.query| == |b.query| && i < j)))))
  }

  /** The rule that decides is one that matches, before which, by the numbers, no other that matches comes. */
  lemma {:induction false} ChosenComesFirst(cs: seq<Candidate>, p: Reading, k: nat)
    ensures Chosen(cs, p, k) <==>
            && k < |cs| && p(cs[k].httpMatch)
            && forall j | 0 <= j < |cs| && j != k && p(cs[j].httpMatch) ::
                 ComesFirst(cs[k].httpMatch, k, cs[j].httpMatch, j)
  {}

  /** The rules of a consolidated route follow one another by these numbers. */
  lemma {:induction false} SortedComesFirst(cs: seq<Candidate>, sorted: seq<Candidate>, from: seq<nat>)
    ensures StableSort(cs, sorted, from) <==>
            && |sorted| == |from| == |cs|
            && (forall k | 0 <= k < |from| :: from[k] < |cs| && sorted[k] == cs[from[k]])
            && (forall i | 0 <= i < |cs| :: i in from)
            && (forall j, k | 0 <= j < k < |from| ::
                  ComesFirst(sorted[j].httpMatch, from[j], sorted[k].httpMatch, from[k]))
  {}

  // ----- Candidates -----------------------------------------------------------------------------------------

  /** c is one of the matches of the rule with what the rule does; a rule without matches matches every path. */
  ghost predicate FromRule(c: Candidate, rule: HTTPRouteRule) {
    && c.filters == rule.filters && c.services == rule.services
    && if rule.matches == []
       then c.httpMatch == HTTPMatch(HTTPPathMatch(PathPrefix, "/"), [], [], MethodNone)
       else c.httpMatch in rule.matches
  }

  ghost predicate FromRules(c: Candidate, rules: seq<HTTPRouteRule>) {
    exists rule | rule in rules :: FromRule(c, rule)
  }

  lemma {:induction false} RuleCandidatesAre(rule: HTTPRouteRule, c: Candidate)
    ensures c in RuleCandidates(rule) <==> FromRule(c, rule)
  {
    var ms, cs := RuleMatches(rule), RuleCandidates(rule);
    if FromRule(c, rule) {
      var i :| 0 <= i < |ms| && ms[i] == c.httpMatch;
      assert cs[i] == c;
    }
  }

  lemma {:induction false} RulesCandidatesAre(rules: seq<HTTPRouteRule>, n: nat, c: Candidate)
    requires n <= |rules|
    ensures c in RulesCandidates(rules, n) <==> FromRules(c, rules[..n])
  {
    if n > 0 {
      RulesCandidatesAre(rules, n - 1, c);
      RuleCandidatesAre(rules[n - 1], c);
      assert rules[..n] == rules[..n - 1] + [rules[n - 1]];
    }
  }

  ghost predicate FromRoute(c: Candidate, r: ResolvedRoute, host: string) {
    r.HTTPRoute? && host in r.hostnames && FromRules(c, r.rules)
  }

  ghost predicate FromRoutes(c: Candidate, routes: seq<ResolvedRoute>, host: string) {
    exists i | 0 <= i < |routes| :: FromRoute(c, routes[i], host)
  }

  lemma {:induction false} FromOneMore(c: Candidate, routes: seq<ResolvedRoute>, r: ResolvedRoute, host: string)
    ensures FromRoutes(c, routes + [r], host) <==> FromRoutes(c, routes, host) || FromRoute(c, r, host)
  {
    var all := routes + [r];
    assert all[|routes|] == r && forall j | 0 <= j < |routes| :: all[j] == routes[j];
  }

  ghost function RouteCandidates(r: ResolvedRoute, host: string): seq<Candidate> {
    if r.HTTPRoute? && host in r.hostnames then RulesCandidates(r.rules, |r.rules|) else []
  }

  lemma {:induction false} RouteCandidatesAre(r: ResolvedRoute, host: string, c: Candidate)
    ensures c in RouteCandidates(r, host) <==> FromRoute(c, r, host)
  {
    if r.HTTPRoute? {
      RulesCandidatesAre(r.rules, |r.rules|, c);
      assert r.rules[..|r.rules|] == r.rules;
    }
  }

  lemma {:induction false} CandidatesOneMore(routes: seq<ResolvedRoute>, r: ResolvedRoute, host: string)
    ensures Candidates(routes + [r], host) == Candidates(routes, host) + RouteCandidates(r, host)
  {
    assert (routes + [r])[..|routes|] == routes;
  }

  /** The candidates for a host are the matches of the rules of the HTTP routes that list it. */
  lemma {:induction false} CandidatesAre(routes: seq<ResolvedRoute>, host: string, c: Candidate)
    ensures c in Candidates(routes, host) <==> FromRoutes(c, routes, host)
  {
    for n := 0 to |routes|
      invariant c in Candidates(routes[..n], host) <==> FromRoutes(c, routes[..n], host)
    {
      CandidatesOneMore(routes[..n], routes[n], host);
      RouteCandidatesAre(routes[n], host, c);
      FromOneMore(c, routes[..n], routes[n], host);
      assert routes[..n] + [routes[n]] == routes[..n + 1];
    }
    assert routes[..|routes|] == routes;
  }

  /** How many candidates the first n rules have. */
  ghost function CountBefore(rules: seq<HTTPRouteRule>, n: nat): nat
    requires n <= |rules|
  {
    if n == 0 then 0 else CountBefore(rules, n - 1) + if rules[n - 1].matches == [] then 1 else |rules[n - 1].matches|
  }

  /** They stand in the order of the rules and, within a rule, of its matches. */
  lemma {:induction false} CandidatesInOrder(rules: seq<HTTPRouteRule>, n: nat, i: nat, j: nat)
    requires i < n <= |rules| && j < |rules[i].matches|
    ensures CountBefore(rules, i) + j < |RulesCandidates(rules, n)| == CountBefore(rules, n)
    ensures RulesCandidates(rules, n)[CountBefore(rules, i) + j] ==
            Candidate(rules[i].matches[j], rules[i].filters, rules[i].services)
  {
    CandidatesCount(rules, n - 1);
    if i < n - 1 {
      CandidatesInOrder(rules, n - 1, i, j);
    }
  }

  lemma {:induction false} CandidatesCount(rules: seq<HTTPRouteRule>, n: nat)
    requires n <= |rules|
    ensures |RulesCandidates(rules, n)| == CountBefore(rules, n)
  {
    if n > 0 {
      CandidatesCount(rules, n - 1);
    }
  }

  // ----- Methods ------------------------------------------------------------------------------------------

  /** The name a method has in HTTP. */
  ghost predicate NamedInHTTP(m: HTTPMethod, name: string) {
    || (m.Connect? && name == "CONNECT") || (m.Delete? && name == "DELETE") || (m.Get? && name == "GET")
    || (m.Head? && name == "HEAD") || (m.Options? && name == "OPTIONS") || (m.Patch? && name == "PATCH")
    || (m.Post? && name == "POST") || (m.Put? && name == "PUT") || (m.Trace? && name == "TRACE")
  }

  /** A match for a method is translated to the method's name in HTTP, one for none to no restriction. */
  lemma {:induction false} MethodsAsNamed(m: HTTPMatch)
    ensures var methods := TranslatedMatch(m).methods;
            if m.httpMethod.MethodNone? then methods == []
            else |methods| == 1 && NamedInHTTP(m.httpMethod, methods[0])
  {}

  /** A request meets such a match only with that method. */
  lemma {:induction false} MethodsAreRequired(m: HTTPMatch, req: Request, re: Regex)
    requires Matches(m, req, re) || ConsulReading(req, re)(m)
    ensures m.httpMethod.MethodNone? || NamedInHTTP(m.httpMethod, req.httpMethod)
  {
    TranslationIsLenient(m, req, re);
  }

  // ----- Translated matches ---------------------------------------------------------------------------------

  /** Field by field, what the translation of one header match is. */
  predicate HeaderByField(t: MatchHeader, h: HTTPHeaderMatch) {
    && t.name == h.name && (t.present <==> h.kind.HeaderPresent?)
    && t.exact == (if h.kind.HeaderExact? then h.value else "")
    && t.prefix == (if h.kind.HeaderPrefix? then h.value else "")
    && t.suffix == (if h.kind.HeaderSuffix? then h.value else "")
    && t.regex == (if h.kind.HeaderRegex? then h.value else "")
  }

  predicate QueryByField(t: MatchQueryParam, q: HTTPQueryMatch) {
    && t.name == q.name && (t.present <==> q.kind.QueryPresent?)
    && t.exact == (if q.kind.QueryExact? then q.value else "")
    && t.regex == (if q.kind.QueryRegex? then q.value else "")
  }

  /** ts stands, in order, for exactly the elements of ss that are kept, each as fits demands. */
  ghost predicate Picks<S, T>(ts: seq<T>, ss: seq<S>, from: seq<nat>, kept: S -> bool, fits: (T, S) -> bool) {
    && |ts| == |from| && (forall k | 0 <= k < |from| :: from[k] < |ss| && kept(ss[from[k]]) && fits(ts[k], ss[from[k]]))
    && (forall j, k | 0 <= j < k < |from| :: from[j] < from[k])
    && (forall i: nat | i < |ss| && kept(ss[i]) :: i in from)
  }

  lemma {:induction false} PicksOneMore<S, T>(ts: seq<T>, ss: seq<S>, from: seq<nat>, kept: S -> bool,
                                              fits: (T, S) -> bool, t: T, s: S)
    requires Picks(ts, ss, from, kept, fits)
    ensures kept(s) && fits(t, s) ==> Picks(ts + [t], ss + [s], from + [|ss|], kept, fits)
  {
    var from' := from + [|ss|];
    assert forall i | 0 <= i < |from| :: from'[i] == from[i];
    assert from'[|from|] == |ss|;
    assert forall i | i in from :: i in from';
  }

  lemma {:induction false} PicksOneLess<S, T>(ts: seq<T>, ss: seq<S>, from: seq<nat>, kept: S -> bool,
                                              fits: (T, S) -> bool, s: S)
    requires Picks(ts, ss, from, kept, fits) && !kept(s)
    ensures Picks(ts, ss + [s], from, kept, fits)
  {}

  /** What is translated one by one, dropping what is not kept, is picked. */
  lemma {:induction false} PicksAll<S(!new), T>(ss: seq<S>, all: seq<S> -> seq<T>, one: S -> Option<T>, kept: S -> bool,
                                                fits: (T, S) -> bool)
    returns (from: seq<nat>)
    requires all([]) == [] && forall xs, x :: all(xs + [x]) == all(xs) + Optional(one(x))
    requires forall x :: if kept(x) then one(x).Some? && fits(one(x).value, x) else one(x).None?
    ensures Picks(all(ss), ss, from, kept, fits)
  {
    from := [];
    for n := 0 to |ss|
      invariant Picks(all(ss[..n]), ss[..n], from, kept, fits)
    {
      var xs, x := ss[..n], ss[n];
      assert all(xs + [x]) == all(xs) + Optional(one(x));
      if kept(x) {
        PicksOneMore(all(xs), xs, from, kept, fits, one(x).value, x);
        from := from + [n];
      } else {
        PicksOneLess(all(xs), xs, from, kept, fits, x);
        assert all(xs) + [] == all(xs);
      }
      assert xs + [x] == ss[..n + 1];
    }
    assert ss[..|ss|] == ss;
  }

  predicate HeaderKept(h: HTTPHeaderMatch) { !h.kind.HeaderNone? }

  predicate QueryKept(q: HTTPQueryMatch) { !q.kind.QueryNone? }

  lemma {:induction false} HeadersOneMore(hs: seq<HTTPHeaderMatch>, h: HTTPHeaderMatch)
    ensures TranslatedHeaders(hs + [h]) == TranslatedHeaders(hs) + Optional(TranslatedHeader(h))
  {
    assert (hs + [h])[..|hs|] == hs;
  }

  lemma {:induction false} HeaderFits(h: HTTPHeaderMatch)
    ensures if HeaderKept(h) then TranslatedHeader(h).Some? && HeaderByField(TranslatedHeader(h).value, h)
            else TranslatedHeader(h).None?
  {}

  lemma {:induction false} HeadersTranslatedByField(hs: seq<HTTPHeaderMatch>) returns (from: seq<nat>)
    ensures Picks(TranslatedHeaders(hs), hs, from, HeaderKept, HeaderByField)
  {
    forall xs, x
      ensures TranslatedHeaders(xs + [x]) == TranslatedHeaders(xs) + Optional(TranslatedHeader(x))
    {
      HeadersOneMore(xs, x);
    }
    forall x
      ensures if HeaderKept(x) then TranslatedHeader(x).Some? && HeaderByField(TranslatedHeader(x).value, x)
              else TranslatedHeader(x).None?
    {
      HeaderFits(x);
    }
    from := PicksAll(hs, TranslatedHeaders, TranslatedHeader, HeaderKept, HeaderByField);
  }

  lemma {:induction false} QueriesOneMore(qs: seq<HTTPQueryMatch>, q: HTTPQueryMatch)
    ensures TranslatedQueries(qs + [q]) == TranslatedQueries(qs) + Optional(TranslatedQuery(q))
  {
    assert (qs + [q])[..|qs|] == qs;
  }

  lemma {:induction false} QueryFits(q: HTTPQueryMatch)
    ensures if QueryKept(q) then TranslatedQuery(q).Some? && QueryByField(TranslatedQuery(q).value, q)
            else TranslatedQuery(q).None?
  {}

  lemma {:induction false} QueriesTranslatedByField(qs: seq<HTTPQueryMatch>) returns (from: seq<nat>)
    ensures Picks(TranslatedQueries(qs), qs, from, QueryKept, QueryByField)
  {
    forall xs, x
      ensures TranslatedQueries(xs + [x]) == TranslatedQueries(xs) + Optional(TranslatedQuery(x))
    {
      QueriesOneMore(xs, x);
    }
    forall x
      ensures if QueryKept(x) then TranslatedQuery(x).Some? && QueryByField(TranslatedQuery(x).value, x)
              else TranslatedQuery(x).None?
    {
      QueryFits(x);
    }
    from := PicksAll(qs, TranslatedQueries, TranslatedQuery, QueryKept, QueryByField);
  }

  /** The whole translation: at most one of the path fields is filled in, and nothing is lost but what has no kind. */
  lemma {:induction false} MatchTranslatedByField(m: HTTPMatch) returns (headers: seq<nat>, queries: seq<nat>)
    ensures var t := TranslatedMatch(m);
            && t.pathExact == (if m.path.kind.PathExact? then m.path.value else "")
            && t.pathPrefix == (if m.path.kind.PathPrefix? then m.path.value else "")
            && t.pathRegex == (if m.path.kind.PathRegex? then m.path.value else "")
            && Picks(t.headers, m.headers, headers, HeaderKept, HeaderByField)
            && Picks(t.queryParams, m.query, queries, QueryKept, QueryByField)
  {
    headers := HeadersTranslatedByField(m.headers);
    queries := QueriesTranslatedByField(m.query);
  }
}
