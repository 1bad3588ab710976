// When compilation preserves meaning: what following the emitted router and splitters does to a request,
// compared with what the routes of the listener prescribe.

module HttpCorrect {
  import opened Wrappers
  import opened Core
  import opened ConsulEntries
  import opened HttpMeaning
  import opened Naming
  import opened HttpCompile
  import opened Precedence

  /** One rule per candidate, each with a single match. */
  function AsRules(cs: seq<Candidate>): seq<HTTPRouteRule> {
    seq(|cs|, i requires 0 <= i < |cs| => HTTPRouteRule([cs[i].httpMatch], cs[i].filters, cs[i].services))
  }

  /** route carries the collected candidates as rules, sorted by precedence. */
  ghost predicate Consolidates(route: ResolvedRoute, collected: seq<Candidate>) {
    route.HTTPRoute? && exists sorted :: StablySorted(collected, sorted) && route.rules == AsRules(sorted)
  }

  /** splitters holds, under the names of the virtual services that route's rules lead to, exactly route's splitters. */
  ghost predicate Installed(splitters: map<string, ServiceSplitter>, route: ResolvedRoute)
    requires route.HTTPRoute? && RuleWeightsInRange(route)
  {
    forall i | 0 <= i < |route.rules| && |route.rules[i].services| != 1 ::
      SplitterOf(route.name, route.namespace, route.meta, i, route.rules[i]) ==
      (if VirtualName(route.name, i) in splitters then Some(splitters[VirtualName(route.name, i)]) else None)
  }

  /** No backend bears the name of a generated splitter. */
  ghost predicate Unsplit(c: Candidate, splitters: map<string, ServiceSplitter>) {
    forall i | 0 <= i < |c.services| :: !IsSplit(c.services[i].service, splitters)
  }

  /** The single route of a rule with a single match. */
  function RouteOf(name: string, namespace: string, idx: nat, c: Candidate): ServiceRoute {
    ServiceRoute(Some(TranslatedMatch(c.httpMatch)),
                 DestinationOf(name, namespace, idx, HTTPRouteRule([c.httpMatch], c.filters, c.services)))
  }

  lemma {:induction false} RuleHasOneRoute(name: string, namespace: string, idx: nat, c: Candidate)
    ensures RuleRoutes(name, namespace, idx, HTTPRouteRule([c.httpMatch], c.filters, c.services)) ==
            [RouteOf(name, namespace, idx, c)]
  {}

  ghost predicate SingleMatches(rules: seq<HTTPRouteRule>) {
    forall i | 0 <= i < |rules| :: |rules[i].matches| == 1
  }

  lemma {:induction false} NextRoute(name: string, namespace: string, rules: seq<HTTPRouteRule>, n: nat)
    requires 0 < n <= |rules| && |rules[n - 1].matches| == 1
    ensures |RuleRoutes(name, namespace, n - 1, rules[n - 1])| == 1
    ensures RoutesBelow(name, namespace, rules, n) ==
            RoutesBelow(name, namespace, rules, n - 1) + [RuleRoutes(name, namespace, n - 1, rules[n - 1])[0]]
  {
    var r := RuleRoutes(name, namespace, n - 1, rules[n - 1]);
    assert r == [r[0]];
  }

  lemma {:induction false} OneRoutePerRule(name: string, namespace: string, rules: seq<HTTPRouteRule>, n: nat)
    requires n <= |rules| && SingleMatches(rules)
    ensures |RoutesBelow(name, namespace, rules, n)| == n
  {
    if n > 0 {
      OneRoutePerRule(name, namespace, rules, n - 1);
      NextRoute(name, namespace, rules, n);
    }
  }

  lemma {:induction false} RouteAt(name: string, namespace: string, rules: seq<HTTPRouteRule>, n: nat, i: nat)
    requires i < n <= |rules| && SingleMatches(rules)
    ensures |RoutesBelow(name, namespace, rules, n)| == n
    ensures |RuleRoutes(name, namespace, i, rules[i])| == 1
    ensures RoutesBelow(name, namespace, rules, n)[i] == RuleRoutes(name, namespace, i, rules[i])[0]
  {
    OneRoutePerRule(name, namespace, rules, n - 1);
    NextRoute(name, namespace, rules, n);
    if i < n - 1 {
      RouteAt(name, namespace, rules, n - 1, i);
    }
  }

  lemma {:induction false} RouteOfRule(name: string, namespace: string, cs: seq<Candidate>, i: nat)
    requires i < |cs|
    ensures |RoutesBelow(name, namespace, AsRules(cs), |cs|)| == |cs|
    ensures RoutesBelow(name, namespace, AsRules(cs), |cs|)[i] == RouteOf(name, namespace, i, cs[i])
  {
    RouteAt(name, namespace, AsRules(cs), |cs|, i);
    RuleHasOneRoute(name, namespace, i, cs[i]);
  }

  lemma {:induction false} FirstMatchIndex(routes: seq<ServiceRoute>, k: nat, req: Request, re: Regex)
    requires k <= |routes|
    requires forall j | 0 <= j < k :: !RouteMatches(routes[j], req, re)
    requires k < |routes| ==> RouteMatches(routes[k], req, re)
    ensures FirstMatch(routes, req, re) == if k < |routes| then Some(routes[k]) else None
  {
    if k > 0 {
      FirstMatchIndex(routes[1..], k - 1, req, re);
    }
  }

  /** The router sends a request where the first rule that matches in Consul's reading points. */
  lemma {:induction false} RouterFollowsFirstMatching(name: string, namespace: string, cs: seq<Candidate>, req: Request,
                                                      re: Regex)
    returns (k: nat)
    ensures k <= |cs|
    ensures FirstMatching(cs, ConsulReading(req, re)) == if k < |cs| then Some(cs[k]) else None
    ensures |RoutesBelow(name, namespace, AsRules(cs), |cs|)| == |cs|
    ensures FirstMatch(RoutesBelow(name, namespace, AsRules(cs), |cs|), req, re) ==
            if k < |cs| then Some(RoutesBelow(name, namespace, AsRules(cs), |cs|)[k]) else None
    ensures k < |cs| ==> RoutesBelow(name, namespace, AsRules(cs), |cs|)[k].destination ==
                         DestinationOf(name, namespace, k, AsRules(cs)[k])
  {
    k := FirstMatchingIndex(cs, ConsulReading(req, re));
    OneRoutePerRule(name, namespace, AsRules(cs), |cs|);
    var routes := RoutesBelow(name, namespace, AsRules(cs), |cs|);
    forall i | 0 <= i < |cs|
      ensures RouteMatches(routes[i], req, re) <==> ConsulReading(req, re)(cs[i].httpMatch)
    {
      RouteOfRule(name, namespace, cs, i);
    }
    FirstMatchIndex(routes, k, req, re);
    if k < |cs| {
      RouteOfRule(name, namespace, cs, k);
    }
  }

  // ----- What one rule delivers ---------------------------------------------------------------------

  /** The rule has a single backend, of weight zero. */
  predicate LoneWeightless(c: Candidate) { |c.services| == 1 && c.services[0].weight == 0 }

  /** What compilation makes of a rule: a single backend takes everything, whatever its weight. */
  function CompiledOutcome(c: Candidate): Outcome
    requires WeightsInRange(c.services)
  {
    if |c.services| == 1
    then Routed([Share(c.services[0].service, 100.0, Modifiers(c.filters + c.services[0].filters))],
                PrefixRewrite(c.filters))
    else RuleOutcome(c)
  }

  lemma {:induction false} SplitsAreShares(filters: seq<HTTPFilter>, services: seq<HTTPService>, d: Destination,
                                           splitters: map<string, ServiceSplitter>)
    requires WeightsInRange(services) && d.requestHeaders == Modifiers(filters)
    requires IsSplit(d.service, splitters) && splitters[d.service.service].splits == SplitsOf(services)
    ensures Follow(d, splitters) == RuleShares(filters, services)
  {
    WeightedSum(services);
    var ws, total := Weighted(services), TotalWeight(services);
    forall i | 0 <= i < |ws|
      ensures Follow(d, splitters)[i] == ShareOf(filters, ws[i], total)
    {
      ModifiersOfBoth(filters, ws[i].filters);
      assert SplitsOf(services)[i] == SplitOf(ws[i], total);
    }
  }

  /** The destination of a rule delivers what compilation makes of the rule. */
  lemma {:induction false} DestinationDelivers(route: ResolvedRoute, k: nat, c: Candidate,
                                               splitters: map<string, ServiceSplitter>,
                                               hasInstances: ResolvedService -> bool)
    requires route.HTTPRoute? && RuleWeightsInRange(route) && k < |route.rules|
    requires route.rules[k] == HTTPRouteRule([c.httpMatch], c.filters, c.services)
    requires Installed(splitters, route) && Unsplit(c, splitters)
    requires !hasInstances(ResolvedService(route.namespace, VirtualName(route.name, k)))
    ensures WeightsInRange(c.services)
    ensures var d := DestinationOf(route.name, route.namespace, k, route.rules[k]);
            && Reaching(Follow(d, splitters), hasInstances) == Reaching(CompiledOutcome(c).shares, hasInstances)
            && d.prefixRewrite == CompiledOutcome(c).prefixRewrite
  {
    var rule := route.rules[k];
    var d := DestinationOf(route.name, route.namespace, k, rule);
    assert WeightsInRange(rule.services);
    if |rule.services| == 1 {
      ModifiersOfBoth(c.filters, c.services[0].filters);
    } else {
      var splitter := SplitterOf(route.name, route.namespace, route.meta, k, rule);
      if splitter.Some? {
        SplitsAreShares(c.filters, c.services, d, splitters);
      } else {
        NothingDelivered(d, splitters, hasInstances);
        assert SplitsOf(rule.services) == [];
        assert CompiledOutcome(c).shares == [];
      }
    }
  }

  lemma {:induction false} NothingDelivered(d: Destination, splitters: map<string, ServiceSplitter>,
                                            hasInstances: ResolvedService -> bool)
    requires !IsSplit(d.service, splitters) && !hasInstances(d.service)
    ensures Reaching(Follow(d, splitters), hasInstances) == []
  {
    assert Follow(d, splitters)[..0] == [];
  }

  lemma {:induction false} OfOneShare(share: Share, hasInstances: ResolvedService -> bool)
    ensures Reaching([share], hasInstances) == if hasInstances(share.service) then [share] else []
  {
    assert [share][..0] == [];
  }

  /** Compilation makes of a rule what the rule prescribes, unless a single backend of weight zero has instances. */
  lemma {:induction false} CompiledAsPrescribedIff(c: Candidate, hasInstances: ResolvedService -> bool)
    requires WeightsInRange(c.services)
    ensures Delivered(CompiledOutcome(c), hasInstances) == Delivered(RuleOutcome(c), hasInstances) <==>
            !(LoneWeightless(c) && hasInstances(c.services[0].service))
  {
    if |c.services| == 1 {
      var s := c.services[0];
      assert c.services[..0] == [];
      OfOneShare(CompiledOutcome(c).shares[0], hasInstances);
      if s.weight == 0 {
        assert Weighted(c.services) == [];
        assert RuleShares(c.filters, c.services) == [];
      } else {
        assert Weighted(c.services) == [s] && TotalWeight(c.services) == s.weight;
        Whole(s.weight);
        assert RuleShares(c.filters, c.services) == CompiledOutcome(c).shares;
      }
    }
  }

  lemma {:induction false} Whole(w: int)
    requires w != 0
    ensures w as real / w as real * 100.0 == 100.0
  {}

  // ----- When two rules come to the same ----------------------------------------------------------------

  /** The backends that receive something: they have weight and instances. */
  function Live(services: seq<HTTPService>, hasInstances: ResolvedService -> bool): seq<HTTPService> {
    if services == [] then []
    else
      var last := services[|services| - 1];
      Live(services[..|services| - 1], hasInstances) +
      (if last.weight != 0 && hasInstances(last.service) then [last] else [])
  }

  /** A rule as compilation takes it: a single backend has all the weight. */
  function AsCompiled(c: Candidate): Candidate {
    if |c.services| == 1 then c.(services := [c.services[0].(weight := 1)]) else c
  }

  /**
   * The rules rewrite prefixes alike, and the same backends receive something, in the same order, with the
   * same proportions of the whole and the same changes of headers.
   */
  ghost predicate ComeToTheSame(c: Candidate, d: Candidate, hasInstances: ResolvedService -> bool) {
    var a, b := Live(c.services, hasInstances), Live(d.services, hasInstances);
    && PrefixRewrite(c.filters) == PrefixRewrite(d.filters)
    && |a| == |b|
    && forall i | 0 <= i < |a| ::
         && a[i].service == b[i].service
         && a[i].weight * TotalWeight(d.services) == b[i].weight * TotalWeight(c.services)
         && Modifiers(c.filters + a[i].filters) == Modifiers(d.filters + b[i].filters)
  }

  lemma {:induction false} CompiledIsPrescribed(c: Candidate)
    requires WeightsInRange(c.services)
    ensures WeightsInRange(AsCompiled(c).services) && CompiledOutcome(c) == RuleOutcome(AsCompiled(c))
  {
    if |c.services| == 1 {
      var s := c.services[0].(weight := 1);
      assert [s][..0] == [];
      assert Weighted([s]) == [s] && TotalWeight([s]) == 1;
      assert RuleShares(c.filters, [s]) == CompiledOutcome(c).shares;
    }
  }

  function SharesOf(filters: seq<HTTPFilter>, ws: seq<HTTPService>, total: int): seq<Share>
    requires total != 0
  {
    seq(|ws|, i requires 0 <= i < |ws| => ShareOf(filters, ws[i], total))
  }

  lemma {:induction false} ReachingOneMore(shares: seq<Share>, share: Share, hasInstances: ResolvedService -> bool)
    ensures Reaching(shares + [share], hasInstances) ==
            Reaching(shares, hasInstances) + if hasInstances(share.service) then [share] else []
  {
    assert (shares + [share])[..|shares|] == shares;
  }

  lemma {:induction false} LiveReach(filters: seq<HTTPFilter>, services: seq<HTTPService>, total: int,
                                     hasInstances: ResolvedService -> bool)
    requires total != 0
    ensures Reaching(SharesOf(filters, Weighted(services), total), hasInstances) ==
            SharesOf(filters, Live(services, hasInstances), total)
  {
    if services != [] {
      var init, last := services[..|services| - 1], services[|services| - 1];
      LiveReach(filters, init, total, hasInstances);
      if last.weight != 0 {
        var shares, share := SharesOf(filters, Weighted(init), total), ShareOf(filters, last, total);
        assert SharesOf(filters, Weighted(services), total) == shares + [share];
        ReachingOneMore(shares, share, hasInstances);
        if hasInstances(last.service) {
          assert SharesOf(filters, Live(services, hasInstances), total) ==
                 SharesOf(filters, Live(init, hasInstances), total) + [share];
        }
      } else {
        assert Weighted(services) == Weighted(init) && Live(services, hasInstances) == Live(init, hasInstances);
      }
    }
  }

  lemma {:induction false} LiveAreWeighted(services: seq<HTTPService>, hasInstances: ResolvedService -> bool)
    ensures Live(services, hasInstances) != [] ==> Weighted(services) != []
  {
    if services != [] {
      LiveAreWeighted(services[..|services| - 1], hasInstances);
    }
  }

  /** What a rule delivers, backend by backend. */
  lemma {:induction false} DeliversToLive(c: Candidate, hasInstances: ResolvedService -> bool)
    requires WeightsInRange(c.services)
    ensures var live := Live(c.services, hasInstances);
            var reached := Reaching(RuleShares(c.filters, c.services), hasInstances);
            && (live != [] ==> TotalWeight(c.services) > 0)
            && |reached| == |live|
            && forall i | 0 <= i < |live| :: reached[i] == ShareOf(c.filters, live[i], TotalWeight(c.services))
  {
    WeightedSum(c.services);
    LiveAreWeighted(c.services, hasInstances);
    var total := TotalWeight(c.services);
    if total == 0 {
      assert RuleShares(c.filters, c.services) == [];
    } else {
      LiveReach(c.filters, c.services, total, hasInstances);
      assert RuleShares(c.filters, c.services) == SharesOf(c.filters, Weighted(c.services), total);
    }
  }

  lemma {:induction false} SameProportion(w: int, t: int, w': int, t': int)
    requires t > 0 && t' > 0
    ensures w as real / t as real * 100.0 == w' as real / t' as real * 100.0 <==> w * t' == w' * t
  {
    var a, b, c, d := w as real, t as real, w' as real, t' as real;
    assert a / b == c / d <==> a * d == c * b by {
      assert a / b * (b * d) == a * d && c / d * (b * d) == c * b;
    }
    assert (w * t') as real == a * d && (w' * t) as real == c * b;
  }

  lemma {:induction false} SameShareIff(c: Candidate, s: HTTPService, d: Candidate, s': HTTPService)
    requires TotalWeight(c.services) > 0 && TotalWeight(d.services) > 0
    ensures ShareOf(c.filters, s, TotalWeight(c.services)) == ShareOf(d.filters, s', TotalWeight(d.services)) <==>
            && s.service == s'.service
            && s.weight * TotalWeight(d.services) == s'.weight * TotalWeight(c.services)
            && Modifiers(c.filters + s.filters) == Modifiers(d.filters + s'.filters)
  {
    SameProportion(s.weight, TotalWeight(c.services), s'.weight, TotalWeight(d.services));
  }

  lemma {:induction false} ComeToTheSameIff(c: Candidate, d: Candidate, hasInstances: ResolvedService -> bool)
    requires WeightsInRange(c.services) && WeightsInRange(d.services)
    ensures Delivered(RuleOutcome(c), hasInstances) == Delivered(RuleOutcome(d), hasInstances) <==>
            ComeToTheSame(c, d, hasInstances)
  {
    DeliversToLive(c, hasInstances);
    DeliversToLive(d, hasInstances);
    var a, b := Live(c.services, hasInstances), Live(d.services, hasInstances);
    var left := Reaching(RuleShares(c.filters, c.services), hasInstances);
    var right := Reaching(RuleShares(d.filters, d.services), hasInstances);
    if |a| == |b| {
      forall i | 0 <= i < |a|
        ensures left[i] == right[i] <==>
                && a[i].service == b[i].service
                && a[i].weight * TotalWeight(d.services) == b[i].weight * TotalWeight(c.services)
                && Modifiers(c.filters + a[i].filters) == Modifiers(d.filters + b[i].filters)
      {
        SameShareIff(c, a[i], d, b[i]);
      }
    }
    assert left == right <==> |left| == |right| && forall i | 0 <= i < |left| :: left[i] == right[i];
  }

  // ----- The candidates of a consolidated route are those of the routes -------------------------------

  lemma {:induction false} RepeatedElements(cs: seq<Candidate>, n: nat)
    ensures forall c | c in Repeat(cs, n) :: c in cs
  {
    if n > 0 {
      RepeatedElements(cs, n - 1);
    }
  }

  lemma {:induction false} CollectedElements(routes: seq<ResolvedRoute>, host: string)
    ensures forall c | c in Collected(routes, host) :: c in Candidates(routes, host)
  {
    if routes != [] {
      var init, last := routes[..|routes| - 1], routes[|routes| - 1];
      CollectedElements(init, host);
      if last.HTTPRoute? {
        RepeatedElements(RulesCandidates(last.rules, |last.rules|), Occurrences(last.hostnames, host));
        OccursIffListed(last.hostnames, host);
      }
    }
  }

  lemma {:induction false} SortedElements(cs: seq<Candidate>, sorted: seq<Candidate>)
    requires StablySorted(cs, sorted)
    ensures forall c | c in sorted :: c in cs
  {}

  // ----- The theorem ----------------------------------------------------------------------------------

  /** The reference outcome, by way of the left-to-right computation of the choice. */
  lemma {:induction false} ReferenceIsBest(routes: seq<ResolvedRoute>, host: string, req: Request, re: Regex)
    requires forall c | c in Candidates(routes, host) :: WeightsInRange(c.services)
    ensures var best := Best(Candidates(routes, host), ApiReading(req, re));
            && (best.Some? ==> best.value in Candidates(routes, host))
            && (best.Some? ==> Reference(routes, host, req, re) == RuleOutcome(best.value))
            && (best.None? ==> Reference(routes, host, req, re) == NotRouted)
  {
    var cs, p := Candidates(routes, host), ApiReading(req, re);
    BestIsChosen(cs, p);
    if k: nat :| Chosen(cs, p, k) {
      ChosenIsBest(cs, p, k);
      var j: nat :| Chosen(cs, p, j) && Reference(routes, host, req, re) == RuleOutcome(cs[j]);
      ChosenIsUnique(cs, p, j, k);
    }
  }

  /** What the rule chosen in Consul's reading comes to, once compiled. */
  ghost function Applied(cs: seq<Candidate>, req: Request, re: Regex): Outcome
    requires forall c | c in cs :: WeightsInRange(c.services)
  {
    var best := Best(cs, ConsulReading(req, re));
    if best.None? then NotRouted else BestIsChosen(cs, ConsulReading(req, re)); CompiledOutcome(best.value)
  }

  ghost function Compiled(c: Option<Candidate>): Outcome
    requires c.Some? ==> WeightsInRange(c.value.services)
  {
    if c.None? then NotRouted else CompiledOutcome(c.value)
  }

  lemma {:induction false} RouterAppliesFirstMatching(route: ResolvedRoute, sorted: seq<Candidate>,
                                                      splitters: map<string, ServiceSplitter>, req: Request, re: Regex,
                                                      hasInstances: ResolvedService -> bool)
    requires route.HTTPRoute? && route.rules == AsRules(sorted) && RuleWeightsInRange(route) &&
             Installed(splitters, route)
    requires forall c | c in sorted :: WeightsInRange(c.services) && Unsplit(c, splitters)
    requires forall i: nat :: !hasInstances(ResolvedService(route.namespace, VirtualName(route.name, i)))
    ensures var first := FirstMatching(sorted, ConsulReading(req, re));
            && (first.Some? ==> WeightsInRange(first.value.services))
            && Delivered(RouterOutcome(RouterOf(route), splitters, req, re), hasInstances) ==
               Delivered(Compiled(first), hasInstances)
  {
    var k := RouterFollowsFirstMatching(route.name, route.namespace, sorted, req, re);
    if k < |sorted| {
      assert sorted[k] in sorted;
      DestinationDelivers(route, k, sorted[k], splitters, hasInstances);
    }
  }

  /** Whatever the request: the router delivers what the rule chosen in Consul's reading is compiled to. */
  lemma {:induction false} RouterAppliesItsChoice(routes: seq<ResolvedRoute>, host: string, route: ResolvedRoute,
                                                  splitters: map<string, ServiceSplitter>, req: Request, re: Regex,
                                                  hasInstances: ResolvedService -> bool)
    requires forall c | c in Candidates(routes, host) :: WeightsInRange(c.services) && Unsplit(c, splitters)
    requires Consolidates(route, Collected(routes, host)) && RuleWeightsInRange(route) && Installed(splitters, route)
    requires forall i: nat :: !hasInstances(ResolvedService(route.namespace, VirtualName(route.name, i)))
    ensures Delivered(RouterOutcome(RouterOf(route), splitters, req, re), hasInstances) ==
            Delivered(Applied(Candidates(routes, host), req, re), hasInstances)
  {
    var sorted :| StablySorted(Collected(routes, host), sorted) && route.rules == AsRules(sorted);
    CollectedElements(routes, host);
    SortedElements(Collected(routes, host), sorted);
    FirstMatchIsReferenceChoice(routes, host, sorted, ConsulReading(req, re));
    RouterAppliesFirstMatching(route, sorted, splitters, req, re, hasInstances);
  }

  // ----- Which rule is applied -------------------------------------------------------------------------

  function Either(p: Reading, q: Reading): Reading { m => p(m) || q(m) }

  /** Of the rules that match in one reading or the other, the best matches in both. */
  ghost predicate ReadAlike(cs: seq<Candidate>, p: Reading, q: Reading) {
    var top := Best(cs, Either(p, q));
    top.Some? ==> p(top.value.httpMatch) && q(top.value.httpMatch)
  }

  lemma {:induction false} BestOfFewer(cs: seq<Candidate>, p: Reading, q: Reading)
    requires forall m :: p(m) ==> q(m)
    requires Best(cs, q).Some? && p(Best(cs, q).value.httpMatch)
    ensures Best(cs, p) == Best(cs, q)
  {
    BestIsChosen(cs, q);
    var k: nat :| Chosen(cs, q, k) && Best(cs, q) == Some(cs[k]);
    assert Chosen(cs, p, k);
    ChosenIsBest(cs, p, k);
  }

  lemma {:induction false} BestMatches(cs: seq<Candidate>, p: Reading)
    ensures Best(cs, p).Some? ==> Best(cs, p).value in cs && p(Best(cs, p).value.httpMatch)
    ensures Best(cs, p).None? <==> forall k | 0 <= k < |cs| :: !p(cs[k].httpMatch)
  {
    BestIsChosen(cs, p);
  }

  /** Two readings choose the same rule if and only if the best rule that matches in either matches in both. */
  lemma {:induction false} SameChoiceIff(cs: seq<Candidate>, p: Reading, q: Reading)
    ensures Best(cs, p) == Best(cs, q) <==> ReadAlike(cs, p, q)
  {
    var top := Best(cs, Either(p, q));
    BestMatches(cs, p);
    BestMatches(cs, q);
    BestMatches(cs, Either(p, q));
    if top.Some? {
      if p(top.value.httpMatch) {
        BestOfFewer(cs, p, Either(p, q));
      }
      if q(top.value.httpMatch) {
        BestOfFewer(cs, q, Either(p, q));
      }
    }
  }

  /**
   * The exact condition on a request: if the best rule that matches in either reading matches in both, that
   * rule must not be a single backend of weight zero with instances; if not, each reading must choose a
   * rule, and the two rules, the second as compilation takes it, must come to the same.
   */
  ghost predicate MeaningKept(cs: seq<Candidate>, req: Request, re: Regex, hasInstances: ResolvedService -> bool) {
    var api, consul := Best(cs, ApiReading(req, re)), Best(cs, ConsulReading(req, re));
    if ReadAlike(cs, ApiReading(req, re), ConsulReading(req, re))
    then api.Some? ==> !(LoneWeightless(api.value) && hasInstances(api.value.services[0].service))
    else api.Some? && consul.Some? && ComeToTheSame(api.value, AsCompiled(consul.value), hasInstances)
  }

  /**
   * For every request: what the router compiled for host delivers, through the splitters it names, is what
   * the routes prescribe (the services reached and their percentages, the header changes and the prefix
   * rewrite) if and only if the request and the rules meet the condition above.
   */
  lemma {:induction false} CompilationPreservesMeaningIff(routes: seq<ResolvedRoute>, host: string,
                                                          route: ResolvedRoute, splitters: map<string, ServiceSplitter>,
                                                          req: Request, re: Regex,
                                                          hasInstances: ResolvedService -> bool)
    requires forall c | c in Candidates(routes, host) :: WeightsInRange(c.services) && Unsplit(c, splitters)
    requires Consolidates(route, Collected(routes, host)) && RuleWeightsInRange(route) && Installed(splitters, route)
    requires forall i: nat :: !hasInstances(ResolvedService(route.namespace, VirtualName(route.name, i)))
    ensures Delivered(RouterOutcome(RouterOf(route), splitters, req, re), hasInstances) ==
            Delivered(Reference(routes, host, req, re), hasInstances) <==>
            MeaningKept(Candidates(routes, host), req, re, hasInstances)
  {
    var cs := Candidates(routes, host);
    var api, consul := Best(cs, ApiReading(req, re)), Best(cs, ConsulReading(req, re));
    RouterAppliesItsChoice(routes, host, route, splitters, req, re, hasInstances);
    ReferenceIsBest(routes, host, req, re);
    SameChoiceIff(cs, ApiReading(req, re), ConsulReading(req, re));
    BestMatches(cs, ConsulReading(req, re));
    if api.Some? {
      CompiledAsPrescribedIff(api.value, hasInstances);
      if consul.Some? {
        CompiledIsPrescribed(consul.value);
        ComeToTheSameIff(api.value, AsCompiled(consul.value), hasInstances);
      }
    }
  }
}
