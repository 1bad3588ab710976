// A gateway two of whose listeners list one host: the last one's routes decide, and a rule of it without a
// splitter of its own follows the splitter that the first one left (internal/adapters/consul/sync.go).

module ChainExamples {
  import opened Wrappers
  import opened Core
  import opened ConsulEntries
  import opened ConfigEntries
  import opened HttpMeaning
  import opened HttpCompile
  import opened HttpCorrect
  import opened Precedence
  import opened Naming
  import opened ChainSpec
  import opened HttpExamples

  /** Two listeners, each with a route for the host; each route has one rule. */
  function TwoListeners(service: string, host: string, c: Candidate, d: Candidate): ResolvedGateway {
    ResolvedGateway(GatewayID("", service), map[],
                    [ResolvedListener("", "", 80, "http", NO_TLS, [ExampleRoute(host, c)]),
                     ResolvedListener("", "", 443, "http", NO_TLS, [ExampleRoute(host, d)])], None)
  }

  function TwoCompiled(name: string, host: string, c: Candidate, d: Candidate): seq<ResolvedRoute> {
    [ExampleCompiled(name, host, c), ExampleCompiled(name, host, d)]
  }

  lemma {:induction false} ExampleLists(l: ResolvedListener, host: string, c: Candidate, h: string)
    requires l.routes == [ExampleRoute(host, c)]
    ensures Lists(l, h) <==> h == host
  {
    assert l.routes[0].HTTPRoute? && (h in l.routes[0].hostnames <==> h == host);
  }

  lemma {:induction false} TwoListenersChain(service: string, crc: string -> nat, host: string, c: Candidate,
                                             d: Candidate)
    requires WeightsInRange(c.services) && WeightsInRange(d.services)
    ensures var g := TwoListeners(service, host, c, d);
            && Chain(TwoCompiled(RouterName(service, crc, host), host, c, d), [Origin(0, host), Origin(1, host)], g,
                     crc)
            && ChecksumsDiffer(g, crc) && LastToList(g, 1, host)
  {
    var g, name := TwoListeners(service, host, c, d), RouterName(service, crc, host);
    ExampleConsolidates(name, host, c);
    ExampleConsolidates(name, host, d);
    assert ConsolidatedFor(ExampleCompiled(name, host, c), g, crc, g.listeners[0], host);
    assert ConsolidatedFor(ExampleCompiled(name, host, d), g, crc, g.listeners[1], host);
    forall l, h | 0 <= l < 2
      ensures Lists(g.listeners[l], h) <==> h == host
    {
      ExampleLists(g.listeners[l], host, if l == 0 then c else d, h);
    }
  }

  // ----- A splitter that stays --------------------------------------------------------------------------------

  /** A rule for all paths with two backends, both the service s with the weight w. */
  function Twice(s: ResolvedService, w: int): Candidate {
    Candidate(MATCH_ALL, [], [HTTPService(s, w, []), HTTPService(s, w, [])])
  }

  lemma {:induction false} Weightless(services: seq<HTTPService>)
    requires forall i | 0 <= i < |services| :: services[i].weight == 0
    ensures Weighted(services) == []
  {
    if services != [] {
      Weightless(services[..|services| - 1]);
    }
  }

  lemma {:induction false} AllWeighted(services: seq<HTTPService>)
    requires forall i | 0 <= i < |services| :: services[i].weight != 0
    ensures Weighted(services) == services
  {
    if services != [] {
      AllWeighted(services[..|services| - 1]);
    }
  }

  lemma {:induction false} OldSplitter(name: string, host: string, c: Candidate, d: Candidate)
    requires WeightsInRange(c.services) && |c.services| != 1 && SplitsOf(c.services) != []
    requires WeightsInRange(d.services) && |d.services| != 1 && SplitsOf(d.services) == []
    ensures var list := TwoCompiled(name, host, c, d);
            && Compilable(list) && LastNamed(list, 1) && InheritsAt(list, 1, 0)
            && LastSplitter(list[..1], name, 0) ==
               Some(ServiceSplitter(VirtualName(name, 0), "", map[], SplitsOf(c.services)))
  {
    var list := TwoCompiled(name, host, c, d);
    assert list[..1] == [list[0]] && [list[0]][..0] == [];
    assert RuleSplitter(list[0], name, 0).Some?;
    assert LastSplitter([list[0]], name, 0) == RuleSplitter(list[0], name, 0);
  }

  /** The second route's only rule has no splitter, and finds that of the first. */
  lemma {:induction false} SplitterStays(name: string, host: string, s: ResolvedService, t: ResolvedService)
    ensures var list := TwoCompiled(name, host, Twice(s, 1), Twice(t, 0));
            && Compilable(list) && Inherits(list, 1) && LastNamed(list, 1)
            && Lookup(SplitterIndex(list), VirtualName(name, 0)) ==
               Some(ServiceSplitter(VirtualName(name, 0), "", map[], SplitsOf(Twice(s, 1).services)))
            && |SplitsOf(Twice(s, 1).services)| == 2 && SplitsOf(Twice(s, 1).services)[1].service == s
  {
    AllWeighted(Twice(s, 1).services);
    Weightless(Twice(t, 0).services);
    OldSplitter(name, host, Twice(s, 1), Twice(t, 0));
    LastRouteInstalledIff(TwoCompiled(name, host, Twice(s, 1), Twice(t, 0)), 1);
  }

  lemma {:induction false} SplitterIsFollowed(name: string, host: string, s: ResolvedService, t: ResolvedService,
                                              path: string, re: Regex)
    requires HasPrefix(path, "/")
    ensures var list := TwoCompiled(name, host, Twice(s, 1), Twice(t, 0));
            && Compilable(list)
            && var o := RouterOutcome(RouterOf(list[1]), SplitterView(SplitterIndex(list)), HttpExamples.Get(path), re);
               o.Routed? && |o.shares| == 2 && o.shares[1].service == s
  {
    var list, d := TwoCompiled(name, host, Twice(s, 1), Twice(t, 0)), Twice(t, 0);
    SplitterStays(name, host, s, t);
    RootMatches(d.services[0], path, re);
    var k := RouterFollowsFirstMatching(name, "", [d], HttpExamples.Get(path), re);
    assert k == 0;
    assert IsSplit(ResolvedService("", VirtualName(name, 0)), SplitterView(SplitterIndex(list)));
  }

  lemma {:induction false} LastReaches(o: Outcome, hasInstances: ResolvedService -> bool)
    requires o.Routed? && o.shares != [] && hasInstances(o.shares[|o.shares| - 1].service)
    ensures Delivered(o, hasInstances).shares != []
  {}

  /**
   * Under the name that both listeners share, a request reaches the backend of the first, although the
   * router of the first is replaced and the rule of the second lets no backend receive anything.
   */
  lemma {:induction false} WeightlessRuleFollowsOldSplitter(name: string, host: string, s: ResolvedService,
                                                            t: ResolvedService, path: string, re: Regex,
                                                            hasInstances: ResolvedService -> bool)
    returns (router: ServiceRouter, splitters: map<string, ServiceSplitter>)
    requires HasPrefix(path, "/") && hasInstances(s)
    ensures var list := TwoCompiled(name, host, Twice(s, 1), Twice(t, 0));
            && Compilable(list) && name in RouterIndex(list) && RouterIndex(list)[name] == RouterEntry(router)
            && splitters == SplitterView(SplitterIndex(list))
    ensures var o := RouterOutcome(router, splitters, HttpExamples.Get(path), re);
            o.Routed? && Delivered(o, hasInstances).shares != []
    ensures Delivered(RuleOutcome(Twice(t, 0)), hasInstances).shares == []
  {
    var list := TwoCompiled(name, host, Twice(s, 1), Twice(t, 0));
    SecondRouterKept(name, host, Twice(s, 1), Twice(t, 0));
    SplitterIsFollowed(name, host, s, t, path, re);
    router, splitters := RouterOf(list[1]), SplitterView(SplitterIndex(list));
    LastReaches(RouterOutcome(router, splitters, HttpExamples.Get(path), re), hasInstances);
    NothingPrescribed(t, hasInstances);
  }

  lemma {:induction false} NothingPrescribed(t: ResolvedService, hasInstances: ResolvedService -> bool)
    ensures Delivered(RuleOutcome(Twice(t, 0)), hasInstances).shares == []
  {
    Weightless(Twice(t, 0).services);
    assert RuleOutcome(Twice(t, 0)).shares == [];
  }

  lemma {:induction false} SecondRouterKept(name: string, host: string, c: Candidate, d: Candidate)
    requires WeightsInRange(c.services) && WeightsInRange(d.services)
    ensures var list := TwoCompiled(name, host, c, d);
            Compilable(list) && name in RouterIndex(list) && RouterIndex(list)[name] == RouterEntry(RouterOf(list[1]))
  {
    LastRouterKept(TwoCompiled(name, host, c, d), 1);
  }
}
