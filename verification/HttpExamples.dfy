// Requests on which compilation keeps the meaning of routes, and some on which it does not
// (internal/adapters/consul/http.go).

module HttpExamples {
  import opened Wrappers
  import opened Core
  import opened ConsulEntries
  import opened HttpMeaning
  import opened Naming
  import opened HttpCompile
  import opened Precedence
  import opened HttpCorrect

  /** Neither slashes nor empty texts make the match differ between the two readings. */
  ghost predicate Plain(c: Candidate, req: Request, re: Regex) {
    !LacksSlash(c.httpMatch.path, req.path) && !SplitsElement(c.httpMatch.path, req.path) &&
    !BlankFails(c.httpMatch, req, re)
  }

  lemma {:induction false} AgreeingReadingsChooseAlike(cs: seq<Candidate>, p: Reading, q: Reading)
    requires forall c | c in cs :: p(c.httpMatch) == q(c.httpMatch)
    ensures ReadAlike(cs, p, q)
  {
    BestMatches(cs, Either(p, q));
  }

  /** Requests that no rule reads differently are treated as prescribed, if no rule has a lone weightless backend. */
  lemma {:induction false} PlainRequestsAreKept(cs: seq<Candidate>, req: Request, re: Regex,
                                                hasInstances: ResolvedService -> bool)
    requires forall c | c in cs :: WeightsInRange(c.services) && !LoneWeightless(c) && Plain(c, req, re)
    ensures MeaningKept(cs, req, re, hasInstances)
  {
    forall c | c in cs
      ensures ApiReading(req, re)(c.httpMatch) == ConsulReading(req, re)(c.httpMatch)
    {
      ReadingsDifferIff(c.httpMatch, req, re);
    }
    AgreeingReadingsChooseAlike(cs, ApiReading(req, re), ConsulReading(req, re));
    BestMatches(cs, ApiReading(req, re));
  }

  // ----- One route with one rule ---------------------------------------------------------------------------

  function ExampleCandidate(prefix: string, s: HTTPService): Candidate {
    Candidate(HTTPMatch(HTTPPathMatch(PathPrefix, prefix), [], [], MethodNone), [], [s])
  }

  function ExampleRoute(host: string, c: Candidate): ResolvedRoute {
    HTTPRoute(map[], "", "", [host], [HTTPRouteRule([c.httpMatch], c.filters, c.services)])
  }

  function ExampleCompiled(name: string, host: string, c: Candidate): ResolvedRoute {
    HTTPRoute(map[], name, "", [host], AsRules([c]))
  }

  function Get(path: string): Request { Request(path, "GET", map[], map[]) }

  lemma {:induction false} ExampleCandidates(host: string, c: Candidate)
    ensures var r := ExampleRoute(host, c); RulesCandidates(r.rules, |r.rules|) == [c]
    ensures Candidates([ExampleRoute(host, c)], host) == [c]
  {
    var r := ExampleRoute(host, c);
    assert RuleCandidates(r.rules[0]) == [c];
    assert RulesCandidates(r.rules, 1) == RulesCandidates(r.rules, 0) + RuleCandidates(r.rules[0]);
    assert [r][..0] == [];
    assert Candidates([r], host) == Candidates([r][..0], host) + [c];
  }

  lemma {:induction false} ExampleCollected(host: string, c: Candidate)
    ensures Collected([ExampleRoute(host, c)], host) == [c]
  {
    var r := ExampleRoute(host, c);
    ExampleCandidates(host, c);
    assert [r][..0] == [] && [host][..0] == [];
    assert Occurrences([host], host) == Occurrences([host][..0], host) + 1;
    assert Repeat([c], 1) == Repeat([c], 0) + [c];
    assert Collected([r], host) == Collected([r][..0], host) + Repeat([c], 1);
  }

  lemma {:induction false} ExampleConsolidates(name: string, host: string, c: Candidate)
    ensures Consolidates(ExampleCompiled(name, host, c), Collected([ExampleRoute(host, c)], host))
  {
    ExampleCollected(host, c);
    assert StableSort([c], [c], [0]);
    assert StablySorted([c], [c]);
  }

  lemma {:induction false} BestOfOne(c: Candidate, p: Reading)
    ensures Best([c], p) == if p(c.httpMatch) then Some(c) else None
  {
    assert [c][..0] == [];
  }

  /** What the compiled rule c delivers differs from what it prescribes. */
  ghost predicate Differs(name: string, host: string, c: Candidate, req: Request, re: Regex,
                          hasInstances: ResolvedService -> bool)
    requires WeightsInRange(c.services)
  {
    ExampleCandidates(host, c);
    Delivered(RouterOutcome(RouterOf(ExampleCompiled(name, host, c)), map[], req, re), hasInstances) !=
    Delivered(Reference([ExampleRoute(host, c)], host, req, re), hasInstances)
  }

  lemma {:induction false} DiffersIff(name: string, host: string, c: Candidate, req: Request, re: Regex,
                                      hasInstances: ResolvedService -> bool)
    requires WeightsInRange(c.services) && |c.services| == 1
    requires forall i: nat :: !hasInstances(ResolvedService("", VirtualName(name, i)))
    ensures Differs(name, host, c, req, re, hasInstances) <==> !MeaningKept([c], req, re, hasInstances)
  {
    ExampleCandidates(host, c);
    ExampleConsolidates(name, host, c);
    CompilationPreservesMeaningIff([ExampleRoute(host, c)], host, ExampleCompiled(name, host, c), map[], req, re,
                                   hasInstances);
  }

  /** A request on which the two readings of the rule disagree is not treated as prescribed. */
  lemma {:induction false} DisagreeingReadingsDiffer(name: string, host: string, c: Candidate, req: Request, re: Regex,
                                                     hasInstances: ResolvedService -> bool)
    requires WeightsInRange(c.services) && |c.services| == 1
    requires forall i: nat :: !hasInstances(ResolvedService("", VirtualName(name, i)))
    requires ApiReading(req, re)(c.httpMatch) != ConsulReading(req, re)(c.httpMatch)
    ensures Differs(name, host, c, req, re, hasInstances)
  {
    DiffersIff(name, host, c, req, re, hasInstances);
    BestOfOne(c, ApiReading(req, re));
    BestOfOne(c, ConsulReading(req, re));
    BestOfOne(c, Either(ApiReading(req, re), ConsulReading(req, re)));
  }

  lemma {:induction false} RootMatches(s: HTTPService, path: string, re: Regex)
    requires HasPrefix(path, "/")
    ensures ApiReading(Get(path), re)(ExampleCandidate("/", s).httpMatch)
    ensures ConsulReading(Get(path), re)(ExampleCandidate("/", s).httpMatch)
  {
    assert Trimmed("/") == "" && "" + "/" == "/";
    TranslationIsLenient(ExampleCandidate("/", s).httpMatch, Get(path), re);
  }

  /** A backend of weight zero receives every request of its rule when it is the only one. */
  lemma {:induction false} WeightlessBackendReceivesAll(name: string, host: string, s: ResolvedService, path: string,
                                                        re: Regex, hasInstances: ResolvedService -> bool)
    requires HasPrefix(path, "/")
    requires hasInstances(s) && forall i: nat :: !hasInstances(ResolvedService("", VirtualName(name, i)))
    ensures Differs(name, host, ExampleCandidate("/", HTTPService(s, 0, [])), Get(path), re, hasInstances)
  {
    var c, req := ExampleCandidate("/", HTTPService(s, 0, [])), Get(path);
    DiffersIff(name, host, c, req, re, hasInstances);
    RootMatches(c.services[0], path, re);
    BestOfOne(c, ApiReading(req, re));
    BestOfOne(c, Either(ApiReading(req, re), ConsulReading(req, re)));
  }

  /** A request whose path continues the last element of the prefix follows the rule, although it should not. */
  lemma {:induction false} SplitElementsAreRouted(name: string, host: string, s: ResolvedService, prefix: string,
                                                  path: string, re: Regex, hasInstances: ResolvedService -> bool)
    requires SplitsElement(HTTPPathMatch(PathPrefix, prefix), path)
    requires forall i: nat :: !hasInstances(ResolvedService("", VirtualName(name, i)))
    ensures Differs(name, host, ExampleCandidate(prefix, HTTPService(s, 1, [])), Get(path), re, hasInstances)
  {
    var c, req := ExampleCandidate(prefix, HTTPService(s, 1, [])), Get(path);
    PathsReadAlikeIff(c.httpMatch.path, req, re);
    TranslationIsLenient(c.httpMatch, req, re);
    DisagreeingReadingsDiffer(name, host, c, req, re, hasInstances);
  }

  /** Such a request is one for "/abcd" under the prefix "/abc". */
  lemma {:induction false} AbcSplitsAbcd()
    ensures SplitsElement(HTTPPathMatch(PathPrefix, "/abc"), "/abcd")
  {
    assert "/abcd"[..4] == "/abc";
  }

  /** A request for the prefix less its trailing slash is not routed, although it should be. */
  lemma {:induction false} SlashlessPathIsLost(name: string, host: string, s: ResolvedService, prefix: string,
                                               path: string, re: Regex, hasInstances: ResolvedService -> bool)
    requires LacksSlash(HTTPPathMatch(PathPrefix, prefix), path)
    requires forall i: nat :: !hasInstances(ResolvedService("", VirtualName(name, i)))
    ensures Differs(name, host, ExampleCandidate(prefix, HTTPService(s, 1, [])), Get(path), re, hasInstances)
  {
    var c, req := ExampleCandidate(prefix, HTTPService(s, 1, [])), Get(path);
    PathsReadAlikeIff(c.httpMatch.path, req, re);
    TranslationIsLenient(c.httpMatch, req, re);
    DisagreeingReadingsDiffer(name, host, c, req, re, hasInstances);
  }

  /** Such a request is one for "/abc" under the prefix "/abc/". */
  lemma {:induction false} AbcLacksSlash()
    ensures LacksSlash(HTTPPathMatch(PathPrefix, "/abc/"), "/abc")
  {
    assert "/abc" + "/" == "/abc/";
  }

  /** A rule that asks for an empty header receives the requests without the header, although it should not. */
  lemma {:induction false} EmptyHeaderIsIgnored(name: string, host: string, header: string, s: ResolvedService,
                                                path: string, re: Regex, hasInstances: ResolvedService -> bool)
    requires HasPrefix(path, "/")
    requires forall i: nat :: !hasInstances(ResolvedService("", VirtualName(name, i)))
    ensures var h := HTTPHeaderMatch(HeaderExact, header, "");
            var m := HTTPMatch(HTTPPathMatch(PathPrefix, "/"), [h], [], MethodNone);
            Differs(name, host, Candidate(m, [], [HTTPService(s, 1, [])]), Get(path), re, hasInstances)
  {
    var h, req := HTTPHeaderMatch(HeaderExact, header, ""), Get(path);
    var m := HTTPMatch(HTTPPathMatch(PathPrefix, "/"), [h], [], MethodNone);
    var c := Candidate(m, [], [HTTPService(s, 1, [])]);
    assert m.headers[0] == h && !HeaderMatches(h, req, re);
    TranslationIsLenient(m, req, re);
    DisagreeingReadingsDiffer(name, host, c, req, re, hasInstances);
  }
}
