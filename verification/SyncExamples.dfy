// Runs of the adapter after which Consul holds entries nobody remembers, for entries that discoveryChain
// does compute: those of a gateway with one HTTP route (internal/adapters/consul/sync.go).

module SyncExamples {
  import opened Wrappers
  import opened Core
  import opened ConsulEntries
  import opened ConfigEntries
  import opened HttpMeaning
  import opened HttpCompile
  import opened HttpCorrect
  import opened Naming
  import opened ChainSpec
  import opened HttpExamples
  import DC = DiscoveryChain
  import SA = SyncAdapter
  import S = SyncSpec
  import R = SyncRuns

  function Bare(service: string): ResolvedGateway {
    ResolvedGateway(GatewayID("", service), map[], [], None)
  }

  /** One listener, one route for one host, one rule with one backend. */
  function OneRoute(service: string, host: string, c: Candidate): ResolvedGateway {
    Bare(service).(listeners := [ResolvedListener("", "", 80, "http", NO_TLS, [ExampleRoute(host, c)])])
  }

  ghost predicate Single(c: Candidate) { |c.services| == 1 && WeightsInRange(c.services) }

  function Compiled(service: string, crc: string -> nat, host: string, c: Candidate): ResolvedRoute {
    ExampleCompiled(RouterName(service, crc, host), host, c)
  }

  lemma {:induction false} OneRouteLists(service: string, host: string, c: Candidate, h: string)
    ensures Lists(OneRoute(service, host, c).listeners[0], h) <==> h == host
  {
    var l := OneRoute(service, host, c).listeners[0];
    assert l.routes[0].HTTPRoute? && (h in l.routes[0].hostnames <==> h == host);
  }

  lemma {:induction false} OneRouteChain(service: string, crc: string -> nat, host: string, c: Candidate)
    requires Single(c)
    ensures Chain([Compiled(service, crc, host, c)], [Origin(0, host)], OneRoute(service, host, c), crc)
  {
    var g, route := OneRoute(service, host, c), Compiled(service, crc, host, c);
    ExampleConsolidates(route.name, host, c);
    assert ConsolidatedFor(route, g, crc, g.listeners[0], host);
    OneRouteLists(service, host, c, host);
    forall l, h | 0 <= l < 1 && Lists(g.listeners[l], h)
      ensures Origin(l, h) in [Origin(0, host)]
    {
      OneRouteLists(service, host, c, h);
    }
  }

  function OneIngress(service: string, crc: string -> nat, host: string, c: Candidate): IngressGateway {
    var g := OneRoute(service, host, c);
    IngressGateway(service, "", map[], None, [DC.IngressListenerOf(g.listeners[0], [DC.HostService(g, crc, host)])])
  }

  lemma {:induction false} OneRouteListeners(service: string, crc: string -> nat, host: string, c: Candidate)
    ensures DC.ListenersOf(OneIngress(service, crc, host, c).listeners, OneRoute(service, host, c), crc, 1, [0])
  {
    var g := OneRoute(service, host, c);
    var l, il := g.listeners[0], OneIngress(service, crc, host, c).listeners[0];
    forall h: string
      ensures Lists(l, h) <==> h in [host]
    {
      OneRouteLists(service, host, c, h);
    }
    assert l.routes[..0] == [];
    assert DC.TcpRoutes(l.routes) == DC.TcpRoutes(l.routes[..0]) + [];
    assert DC.ServicesFor(il.services, [host], g, crc, l);
    assert Lists(l, host);
  }

  ghost function OneComputed(service: string, crc: string -> nat, host: string, c: Candidate): Computed
    requires Single(c)
  {
    var list := [Compiled(service, crc, host, c)];
    Computed(OneIngress(service, crc, host, c), RouterIndex(list), SplitterIndex(list), DefaultsIndex(list))
  }

  lemma {:induction false} OneRouteServed(service: string, crc: string -> nat, host: string, c: Candidate)
    ensures DC.AllServed(OneIngress(service, crc, host, c).listeners, [Compiled(service, crc, host, c)])
  {
    var services, list := OneIngress(service, crc, host, c).listeners[0].services, [Compiled(service, crc, host, c)];
    assert services[0].name == list[0].name;
    assert DC.ServedBy(services, list);
  }

  lemma {:induction false} OneIsConsistent(service: string, crc: string -> nat, host: string, c: Candidate)
    requires Single(c)
    ensures Consistent(OneComputed(service, crc, host, c))
  {
    OneRouteChain(service, crc, host, c);
    OneRouteServed(service, crc, host, c);
    DC.ComputedIsConsistent(OneIngress(service, crc, host, c), [Compiled(service, crc, host, c)], [Origin(0, host)],
                            OneRoute(service, host, c), crc);
  }

  /** These entries are what discoveryChain computes for the gateway. */
  lemma {:induction false} OneIsComputed(service: string, crc: string -> nat, host: string, c: Candidate)
    requires Single(c)
    ensures SA.ComputedBy(OneComputed(service, crc, host, c), OneRoute(service, host, c), crc)
  {
    OneRouteChain(service, crc, host, c);
    OneRouteListeners(service, crc, host, c);
    OneIsConsistent(service, crc, host, c);
    Assemble(OneRoute(service, host, c), crc, OneIngress(service, crc, host, c), [Compiled(service, crc, host, c)],
             [Origin(0, host)], [0]);
  }

  lemma {:induction false} Assemble(g: ResolvedGateway, crc: string -> nat, ingress: IngressGateway,
                                    list: seq<ResolvedRoute>, origins: seq<Origin>, from: seq<nat>)
    requires Chain(list, origins, g, crc)
    requires Consistent(Computed(ingress, RouterIndex(list), SplitterIndex(list), DefaultsIndex(list)))
    requires ingress == IngressGateway(g.id.service, g.id.consulNamespace, g.meta, g.maxConnections, ingress.listeners)
    requires DC.ListenersOf(ingress.listeners, g, crc, |g.listeners|, from)
    ensures SA.ComputedBy(Computed(ingress, RouterIndex(list), SplitterIndex(list), DefaultsIndex(list)), g, crc)
  {
    assert SA.ComputedAs(Computed(ingress, RouterIndex(list), SplitterIndex(list), DefaultsIndex(list)), g, crc, list,
                         origins, from);
  }

  lemma {:induction false} OneDefault(service: string, crc: string -> nat, host: string, c: Candidate)
    requires Single(c)
    ensures var n := RouterName(service, crc, host);
            OneComputed(service, crc, host, c).defaults == map[n := DefaultOf(n, "", map[])]
  {
    var route := Compiled(service, crc, host, c);
    assert SplittersBelow(route.name, "", map[], route.rules, 1) ==
           SplittersBelow(route.name, "", map[], route.rules, 0) + [];
    assert SplitterNames([]) == {};
    assert [route][..0] == [];
    assert DefaultsIndex([route]) == DefaultsIndex([route][..0]) + RouteDefaults(route);
    assert RouteDefaults(route) == DefaultsOf({route.name}, "", map[]);
  }

  function NoEntries(service: string): Computed {
    Computed(IngressGateway(service, "", map[], None, []), map[], map[], map[])
  }

  /** Without listeners nothing but an empty ingress is computed. */
  lemma {:induction false} NoneIsComputed(service: string, crc: string -> nat)
    ensures SA.ComputedBy(NoEntries(service), Bare(service), crc)
  {
    assert SA.ComputedAs(NoEntries(service), Bare(service), crc, [], [], []);
  }

  /**
   * A Sync of a gateway with one route fails; the route is deleted and the next Sync succeeds: the
   * service-defaults of the route stay in Consul and the adapter does not know of them.
   */
  lemma {:induction false} DeletedRouteLeavesOrphan(service: string, crc: string -> nat, host: string, c: Candidate)
    returns (one: Computed, calls: seq<R.Call>, g: R.Gateway)
    requires Single(c)
    ensures SA.ComputedBy(one, OneRoute(service, host, c), crc)
    ensures R.Run(R.INITIAL, calls, g, S.Names(service, crc)) && |calls| == 2 && calls[0].Sync? && calls[0].next == one
    ensures g.synced.Some? && SA.ComputedBy(g.synced.value, Bare(service), crc) && !R.InStep(g)
  {
    var n, nm := RouterName(service, crc, host), S.Names(service, crc);
    one := OneComputed(service, crc, host, c);
    OneIsComputed(service, crc, host, c);
    NoneIsComputed(service, crc);
    OneDefault(service, crc, host, c);
    SA.ComputedHasItsNames(one, OneRoute(service, host, c), crc);
    SA.ComputedHasItsNames(NoEntries(service), Bare(service), crc);
    calls, g := R.AbandonedSyncLeavesOrphan(nm, n, one, DefaultOf(n, "", map[]), NoEntries(service));
  }

  /** A Sync of a gateway with one route fails; the gateway is deleted and Clear succeeds: the service-defaults stay. */
  lemma {:induction false} DeletedGatewayLeavesOrphan(service: string, crc: string -> nat, host: string, c: Candidate)
    returns (one: Computed, calls: seq<R.Call>, g: R.Gateway)
    requires Single(c)
    ensures SA.ComputedBy(one, OneRoute(service, host, c), crc)
    ensures R.Run(R.INITIAL, calls, g, S.Names(service, crc)) && |calls| == 2 && calls[0].Sync? && calls[0].next == one
    ensures calls[1].Clear? && R.Succeeds(R.Step(R.INITIAL, calls[0]), calls[1]) && g.synced == None &&
            g.stored != map[]
  {
    var n, nm := RouterName(service, crc, host), S.Names(service, crc);
    one := OneComputed(service, crc, host, c);
    OneIsComputed(service, crc, host, c);
    OneDefault(service, crc, host, c);
    SA.ComputedHasItsNames(one, OneRoute(service, host, c), crc);
    calls, g := R.ClearAfterFailedSyncLeavesOrphan(nm, n, one, DefaultOf(n, "", map[]));
  }
}
