// The set of config entries computed for a gateway (internal/adapters/consul/sync.go,
// discoveryChain), and what holds of every such set.

module ChainSpec {
  import opened Wrappers
  import opened Core
  import opened ConsulEntries
  import opened ConfigEntries
  import opened HttpMeaning
  import opened Naming
  import opened HttpCompile
  import opened Precedence
  import opened HttpCorrect

  /** The entries computed for one gateway. */
  datatype Computed = Computed(ingress: IngressGateway, routers: Index, splitters: Index, defaults: Index)

  /** Names of the ingress services that come from HTTP routes. */
  ghost predicate IsHttpService(ingress: IngressGateway, name: string) {
    exists l, s | 0 <= l < |ingress.listeners| && 0 <= s < |ingress.listeners[l].services| ::
      ingress.listeners[l].services[s].name == name && ingress.listeners[l].services[s].hosts != []
  }

  /** What the write order of the adapter relies on. */
  ghost predicate Consistent(c: Computed) {
    && Indexed(c.routers, RouterKind) && Indexed(c.splitters, SplitterKind) && Indexed(c.defaults, DefaultsKind)
    && c.defaults.Keys == c.routers.Keys + c.splitters.Keys
    && c.routers.Keys !! c.splitters.Keys
    && forall n | IsHttpService(c.ingress, n) :: n in c.routers
  }

  // ----- Entries of the consolidated routes, in order -----------------------------------------------

  ghost predicate Compilable(list: seq<ResolvedRoute>) {
    forall i | 0 <= i < |list| :: list[i].HTTPRoute? && RuleWeightsInRange(list[i])
  }

  function DefaultOf(name: string, namespace: string, meta: Meta): ConfigEntry {
    DefaultsEntry(ServiceDefaults(name, namespace, "http", meta))
  }

  function SplitterNames(ss: seq<ServiceSplitter>): set<string> {
    set i | 0 <= i < |ss| :: ss[i].name
  }

  function SplitterEntries(ss: seq<ServiceSplitter>): Index {
    if ss == [] then map[]
    else SplitterEntries(ss[..|ss| - 1])[ss[|ss| - 1].name := SplitterEntry(ss[|ss| - 1])]
  }

  function DefaultsOf(names: set<string>, namespace: string, meta: Meta): Index {
    map n | n in names :: DefaultOf(n, namespace, meta)
  }

  /** A service-defaults entry for the router and one for each of its splitters. */
  function RouteDefaults(route: ResolvedRoute): Index
    requires route.HTTPRoute? && RuleWeightsInRange(route)
  {
    DefaultsOf({route.name} + SplitterNames(SplittersOf(route)), route.namespace, route.meta)
  }

  ghost function RouterIndex(list: seq<ResolvedRoute>): Index
    requires Compilable(list)
  {
    if list == [] then map[]
    else RouterIndex(list[..|list| - 1])[list[|list| - 1].name := RouterEntry(RouterOf(list[|list| - 1]))]
  }

  ghost function SplitterIndex(list: seq<ResolvedRoute>): Index
    requires Compilable(list)
  {
    if list == [] then map[]
    else SplitterIndex(list[..|list| - 1]) + SplitterEntries(SplittersOf(list[|list| - 1]))
  }

  ghost function DefaultsIndex(list: seq<ResolvedRoute>): Index
    requires Compilable(list)
  {
    if list == [] then map[]
    else DefaultsIndex(list[..|list| - 1]) + RouteDefaults(list[|list| - 1])
  }

  lemma {:induction false} SplitterEntriesKeys(ss: seq<ServiceSplitter>)
    ensures SplitterEntries(ss).Keys == SplitterNames(ss)
    ensures Indexed(SplitterEntries(ss), SplitterKind)
  {
    if ss != [] {
      var init := ss[..|ss| - 1];
      SplitterEntriesKeys(init);
      assert SplitterNames(ss) == SplitterNames(init) + {ss[|ss| - 1].name};
    }
  }

  lemma {:induction false} RoutersIndexed(list: seq<ResolvedRoute>)
    requires Compilable(list)
    ensures Indexed(RouterIndex(list), RouterKind)
  {
    if list != [] {
      RoutersIndexed(list[..|list| - 1]);
    }
  }

  lemma {:induction false} SplittersIndexed(list: seq<ResolvedRoute>)
    requires Compilable(list)
    ensures Indexed(SplitterIndex(list), SplitterKind)
  {
    if list != [] {
      SplittersIndexed(list[..|list| - 1]);
      SplitterEntriesKeys(SplittersOf(list[|list| - 1]));
      IndexedStep(SplitterIndex(list[..|list| - 1]), SplitterEntries(SplittersOf(list[|list| - 1])), SplitterKind);
    }
  }

  lemma {:induction false} DefaultsIndexed(list: seq<ResolvedRoute>)
    requires Compilable(list)
    ensures Indexed(DefaultsIndex(list), DefaultsKind)
  {
    if list != [] {
      DefaultsIndexed(list[..|list| - 1]);
      IndexedStep(DefaultsIndex(list[..|list| - 1]), RouteDefaults(list[|list| - 1]), DefaultsKind);
    }
  }

  /** The defaults cover exactly the routers and the splitters. */
  lemma {:induction false} DefaultsCoverExactly(list: seq<ResolvedRoute>)
    requires Compilable(list)
    ensures DefaultsIndex(list).Keys == RouterIndex(list).Keys + SplitterIndex(list).Keys
    ensures Indexed(RouterIndex(list), RouterKind)
    ensures Indexed(SplitterIndex(list), SplitterKind)
    ensures Indexed(DefaultsIndex(list), DefaultsKind)
  {
    RoutersIndexed(list);
    SplittersIndexed(list);
    DefaultsIndexed(list);
    DefaultsCover(list);
  }

  lemma {:induction false} DefaultsCover(list: seq<ResolvedRoute>)
    requires Compilable(list)
    ensures DefaultsIndex(list).Keys == RouterIndex(list).Keys + SplitterIndex(list).Keys
  {
    if list != [] {
      var init, last := list[..|list| - 1], list[|list| - 1];
      DefaultsCover(init);
      SplitterEntriesKeys(SplittersOf(last));
      CoverStep(DefaultsIndex(init), RouterIndex(init), SplitterIndex(init), RouteDefaults(last), last.name,
                RouterEntry(RouterOf(last)), SplitterEntries(SplittersOf(last)));
    }
  }

  lemma {:induction false} CoverStep(d: Index, r: Index, s: Index, more: Index, name: string, e: ConfigEntry,
                                     own: Index)
    requires d.Keys == r.Keys + s.Keys && more.Keys == {name} + own.Keys
    ensures (d + more).Keys == r[name := e].Keys + (s + own).Keys
  {}

  lemma {:induction false} IndexedStep(a: Index, b: Index, kind: Kind)
    requires Indexed(a, kind) && Indexed(b, kind)
    ensures Indexed(a + b, kind)
  {}

  // ----- Names ------------------------------------------------------------------------------------------

  lemma {:induction false} NamesWithOneMore(ss: seq<ServiceSplitter>, o: Option<ServiceSplitter>)
    ensures SplitterNames(ss + Optional(o)) == SplitterNames(ss) + if o.Some? then {o.value.name} else {}
  {
    var all := ss + Optional(o);
    assert forall i | 0 <= i < |ss| :: all[i] == ss[i];
    if o.Some? {
      assert all[|ss|] == o.value;
    }
  }

  ghost predicate VirtualBelow(name: string, n: nat, s: string) {
    exists i: nat :: i < n && s == VirtualName(name, i)
  }

  lemma {:induction false} VirtualBelowMore(name: string, n: nat, s: string)
    ensures VirtualBelow(name, n + 1, s) <==> VirtualBelow(name, n, s) || s == VirtualName(name, n)
  {}

  lemma {:induction false} SplitterNameIsVirtual(name: string, namespace: string, meta: Meta, rules: seq<HTTPRouteRule>,
                                                 n: nat, s: string)
    requires n <= |rules| && forall i | 0 <= i < |rules| :: WeightsInRange(rules[i].services)
    requires s in SplitterNames(SplittersBelow(name, namespace, meta, rules, n))
    ensures VirtualBelow(name, n, s)
  {
    for m := 0 to n
      invariant s in SplitterNames(SplittersBelow(name, namespace, meta, rules, m)) ==> VirtualBelow(name, m, s)
    {
      NamesWithOneMore(SplittersBelow(name, namespace, meta, rules, m), SplitterOf(name, namespace, meta, m, rules[m]));
      VirtualBelowMore(name, m, s);
    }
  }

  lemma {:induction false} SplitterKeyIsVirtual(list: seq<ResolvedRoute>, s: string)
    requires Compilable(list) && s in SplitterIndex(list)
    ensures exists k: nat, i: nat :: k < |list| && s == VirtualName(list[k].name, i)
  {
    var init, last := list[..|list| - 1], list[|list| - 1];
    SplitterEntriesKeys(SplittersOf(last));
    if s in SplitterEntries(SplittersOf(last)) {
      SplitterNameIsVirtual(last.name, last.namespace, last.meta, last.rules, |last.rules|, s);
      var i: nat :| i < |last.rules| && s == VirtualName(last.name, i);
      assert s == VirtualName(list[|list| - 1].name, i);
    } else {
      SplitterKeyIsVirtual(init, s);
      var k: nat, i: nat :| k < |init| && s == VirtualName(init[k].name, i);
      assert s == VirtualName(list[k].name, i);
    }
  }

  lemma {:induction false} RouterKeyIsName(list: seq<ResolvedRoute>, s: string)
    requires Compilable(list)
    ensures s in RouterIndex(list) <==> exists k: nat :: k < |list| && list[k].name == s
  {
    if list != [] {
      var init := list[..|list| - 1];
      RouterKeyIsName(init, s);
      if k: nat :| k < |list| && list[k].name == s {
        assert k < |init| ==> init[k].name == s;
      }
      if k: nat :| k < |init| && init[k].name == s {
        assert list[k].name == s;
      }
      assert list[|list| - 1].name in RouterIndex(list);
    }
  }

  /** All routes of the list are named after hosts of one gateway. */
  ghost predicate NamedAfterHosts(list: seq<ResolvedRoute>, service: string, crc: string -> nat, hosts: seq<string>) {
    |hosts| == |list| && forall k | 0 <= k < |list| ::
      list[k].HTTPRoute? && list[k].name == RouterName(service, crc, hosts[k])
  }

  /** No router of a gateway shares its name with a splitter, so neither can be taken for the other. */
  lemma {:induction false} RoutersAndSplittersApart(list: seq<ResolvedRoute>, service: string, crc: string -> nat,
                                                    hosts: seq<string>)
    requires Compilable(list) && NamedAfterHosts(list, service, crc, hosts)
    ensures RouterIndex(list).Keys !! SplitterIndex(list).Keys
  {
    forall s | s in SplitterIndex(list)
      ensures s !in RouterIndex(list)
    {
      SplitterKeyIsVirtual(list, s);
      RouterKeyIsName(list, s);
      var k: nat, i: nat :| k < |list| && s == VirtualName(list[k].name, i);
      forall j: nat | j < |list|
        ensures list[j].name != s
      {
        RouterIsNeverVirtual(service, crc, hosts[j], hosts[k], i);
      }
    }
  }

  // ----- A route whose name is its own keeps its router and its splitters -----------------------------

  /** The splitters of an index, by name. */
  function SplitterView(idx: Index): map<string, ServiceSplitter> {
    map n | n in idx && idx[n].SplitterEntry? :: idx[n].splitter
  }

  function Lookup(idx: Index, name: string): Option<ServiceSplitter> {
    if name in SplitterView(idx) then Some(SplitterView(idx)[name]) else None
  }

  lemma {:induction false} LookupWithOneMore(ss: seq<ServiceSplitter>, o: Option<ServiceSplitter>, name: string)
    ensures Lookup(SplitterEntries(ss + Optional(o)), name) ==
            if o.Some? && o.value.name == name then o else Lookup(SplitterEntries(ss), name)
  {
    if o.Some? {
      assert (ss + [o.value])[..|ss|] == ss;
    } else {
      assert ss + [] == ss;
    }
  }

  /** The splitters there are among the first n. */
  function Collect(os: seq<Option<ServiceSplitter>>, n: nat): seq<ServiceSplitter>
    requires n <= |os|
  {
    if n == 0 then [] else Collect(os, n - 1) + Optional(os[n - 1])
  }

  ghost predicate NamedDistinctly(os: seq<Option<ServiceSplitter>>, names: seq<string>) {
    && |names| == |os|
    && (forall j | 0 <= j < |os| && os[j].Some? :: os[j].value.name == names[j])
    && (forall j, k | 0 <= j < k < |names| :: names[j] != names[k])
  }

  /** Each splitter is found under its name, and a name without a splitter finds none. */
  lemma {:induction false} CollectLookup(os: seq<Option<ServiceSplitter>>, names: seq<string>, n: nat, i: nat)
    requires NamedDistinctly(os, names) && n <= |os| && i < |os|
    ensures Lookup(SplitterEntries(Collect(os, n)), names[i]) == if i < n then os[i] else None
  {
    if n > 0 {
      CollectLookup(os, names, n - 1, i);
      LookupWithOneMore(Collect(os, n - 1), os[n - 1], names[i]);
    }
  }

  ghost function SplitterOptions(name: string, namespace: string, meta: Meta,
                                 rules: seq<HTTPRouteRule>): seq<Option<ServiceSplitter>>
    requires forall i | 0 <= i < |rules| :: WeightsInRange(rules[i].services)
  {
    seq(|rules|, i requires 0 <= i < |rules| => SplitterOf(name, namespace, meta, i, rules[i]))
  }

  lemma {:induction false} SplittersAreCollected(name: string, namespace: string, meta: Meta, rules: seq<HTTPRouteRule>,
                                                 n: nat)
    requires n <= |rules| && forall i | 0 <= i < |rules| :: WeightsInRange(rules[i].services)
    ensures SplittersBelow(name, namespace, meta, rules, n) == Collect(SplitterOptions(name, namespace, meta, rules), n)
  {
    var os := SplitterOptions(name, namespace, meta, rules);
    for m := 0 to n
      invariant SplittersBelow(name, namespace, meta, rules, m) == Collect(os, m)
    {
      assert os[m] == SplitterOf(name, namespace, meta, m, rules[m]);
    }
  }

  ghost function VirtualNames(name: string, n: nat): seq<string> {
    seq(n, i requires 0 <= i < n => VirtualName(name, i))
  }

  lemma {:induction false} SplittersNamedDistinctly(name: string, namespace: string, meta: Meta,
                                                    rules: seq<HTTPRouteRule>)
    requires forall i | 0 <= i < |rules| :: WeightsInRange(rules[i].services)
    ensures NamedDistinctly(SplitterOptions(name, namespace, meta, rules), VirtualNames(name, |rules|))
  {
    var names := VirtualNames(name, |rules|);
    forall j, k | 0 <= j < k < |names|
      ensures names[j] != names[k]
    {
      if names[j] == names[k] {
        VirtualNameUnique(name, j, name, k);
      }
    }
  }

  lemma {:induction false} OwnSplitters(name: string, namespace: string, meta: Meta, rules: seq<HTTPRouteRule>, i: nat)
    requires i < |rules| && forall i | 0 <= i < |rules| :: WeightsInRange(rules[i].services)
    ensures Lookup(SplitterEntries(SplittersBelow(name, namespace, meta, rules, |rules|)), VirtualName(name, i)) ==
            SplitterOf(name, namespace, meta, i, rules[i])
  {
    SplittersAreCollected(name, namespace, meta, rules, |rules|);
    SplittersNamedDistinctly(name, namespace, meta, rules);
    CollectLookup(SplitterOptions(name, namespace, meta, rules), VirtualNames(name, |rules|), |rules|, i);
  }

  ghost predicate OnlyOneNamed(list: seq<ResolvedRoute>, k: nat) {
    k < |list| && forall j | 0 <= j < |list| && j != k :: list[j].name != list[k].name
  }

  lemma {:induction false} LookupMerged(a: Index, b: Index, name: string)
    requires Indexed(b, SplitterKind)
    ensures Lookup(a + b, name) == if Lookup(b, name).Some? then Lookup(b, name) else Lookup(a, name)
  {}

  /** The splitter of rule i of the last route of that name that has one. */
  ghost function LastSplitter(list: seq<ResolvedRoute>, name: string, i: nat): Option<ServiceSplitter>
    requires Compilable(list)
  {
    if list == [] then None
    else
      var own := RuleSplitter(list[|list| - 1], name, i);
      if own.Some? then own else LastSplitter(list[..|list| - 1], name, i)
  }

  ghost function RuleSplitter(route: ResolvedRoute, name: string, i: nat): Option<ServiceSplitter>
    requires route.HTTPRoute? && RuleWeightsInRange(route)
  {
    if route.name == name && i < |route.rules| then SplitterOf(name, route.namespace, route.meta, i, route.rules[i])
    else None
  }

  lemma {:induction false} LookupOfRoute(route: ResolvedRoute, name: string, i: nat)
    requires route.HTTPRoute? && RuleWeightsInRange(route)
    ensures Lookup(SplitterEntries(SplittersOf(route)), VirtualName(name, i)) == RuleSplitter(route, name, i)
  {
    var v := VirtualName(name, i);
    SplitterEntriesKeys(SplittersOf(route));
    if route.name == name && i < |route.rules| {
      OwnSplitters(name, route.namespace, route.meta, route.rules, i);
    } else if v in SplitterEntries(SplittersOf(route)) {
      SplitterNameIsVirtual(route.name, route.namespace, route.meta, route.rules, |route.rules|, v);
      var j: nat :| j < |route.rules| && v == VirtualName(route.name, j);
      VirtualNameUnique(name, i, route.name, j);
    }
  }

  /** Merged one after the other, a rule finds the last splitter that a route of its name has for it. */
  lemma {:induction false} LookupIsLastSplitter(list: seq<ResolvedRoute>, name: string, i: nat)
    requires Compilable(list)
    ensures Lookup(SplitterIndex(list), VirtualName(name, i)) == LastSplitter(list, name, i)
  {
    if list != [] {
      var init, last := list[..|list| - 1], list[|list| - 1];
      LookupIsLastSplitter(init, name, i);
      LookupOfRoute(last, name, i);
      SplitterEntriesKeys(SplittersOf(last));
      LookupMerged(SplitterIndex(init), SplitterEntries(SplittersOf(last)), VirtualName(name, i));
    }
  }

  ghost predicate LastNamed(list: seq<ResolvedRoute>, k: nat) {
    k < |list| && forall j | k < j < |list| :: list[j].name != list[k].name
  }

  /** Of routes that share a name the last one keeps its router. */
  lemma {:induction false} LastRouterKept(list: seq<ResolvedRoute>, k: nat)
    requires Compilable(list) && LastNamed(list, k)
    ensures list[k].name in RouterIndex(list) && RouterIndex(list)[list[k].name] == RouterEntry(RouterOf(list[k]))
  {
    var init := list[..|list| - 1];
    if k < |list| - 1 {
      assert init[k] == list[k];
      LastRouterKept(init, k);
    }
  }

  lemma {:induction false} LastSplitterAt(list: seq<ResolvedRoute>, k: nat, i: nat)
    requires Compilable(list) && LastNamed(list, k) && i < |list[k].rules|
    ensures var own := RuleSplitter(list[k], list[k].name, i);
            LastSplitter(list, list[k].name, i) == if own.Some? then own else LastSplitter(list[..k], list[k].name, i)
  {
    var init := list[..|list| - 1];
    if k < |list| - 1 {
      assert init[k] == list[k] && init[..k] == list[..k];
      LastSplitterAt(init, k, i);
    }
  }

  lemma {:induction false} NoneNamedNoSplitter(list: seq<ResolvedRoute>, name: string, i: nat)
    requires Compilable(list) && forall j | 0 <= j < |list| :: list[j].name != name
    ensures LastSplitter(list, name, i) == None
  {
    if list != [] {
      NoneNamedNoSplitter(list[..|list| - 1], name, i);
    }
  }

  /** Rule i of route k goes through a virtual service without a splitter of its own, and an earlier route left one. */
  ghost predicate InheritsAt(list: seq<ResolvedRoute>, k: nat, i: nat)
    requires Compilable(list) && k < |list| && i < |list[k].rules|
  {
    |list[k].rules[i].services| != 1 && RuleSplitter(list[k], list[k].name, i).None? &&
    LastSplitter(list[..k], list[k].name, i).Some?
  }

  ghost predicate Inherits(list: seq<ResolvedRoute>, k: nat)
    requires Compilable(list) && k < |list|
  {
    exists i | 0 <= i < |list[k].rules| :: InheritsAt(list, k, i)
  }

  /**
   * The last route of a name has exactly its own splitters in the merged index, where it needs them, if and
   * only if none of its rules inherits one: a rule that does follows the splitter of an earlier route.
   */
  lemma {:induction false} LastRouteInstalledIff(list: seq<ResolvedRoute>, k: nat)
    requires Compilable(list) && LastNamed(list, k)
    ensures Installed(SplitterView(SplitterIndex(list)), list[k]) <==> !Inherits(list, k)
    ensures forall i | 0 <= i < |list[k].rules| && InheritsAt(list, k, i) ::
              Lookup(SplitterIndex(list), VirtualName(list[k].name, i)) == LastSplitter(list[..k], list[k].name, i)
  {
    var route, splitters := list[k], SplitterView(SplitterIndex(list));
    forall i | 0 <= i < |route.rules|
      ensures var own := SplitterOf(route.name, route.namespace, route.meta, i, route.rules[i]);
              Lookup(SplitterIndex(list), VirtualName(route.name, i)) ==
              if own.Some? then own else LastSplitter(list[..k], route.name, i)
    {
      LookupIsLastSplitter(list, route.name, i);
      LastSplitterAt(list, k, i);
    }
    if i :| 0 <= i < |route.rules| && InheritsAt(list, k, i) {
      assert SplitterOf(route.name, route.namespace, route.meta, i, route.rules[i]) !=
             Lookup(SplitterIndex(list), VirtualName(route.name, i));
      assert !Installed(splitters, route);
    } else {
      forall i | 0 <= i < |route.rules| && |route.rules[i].services| != 1
        ensures SplitterOf(route.name, route.namespace, route.meta, i, route.rules[i]) ==
                Lookup(SplitterIndex(list), VirtualName(route.name, i))
      {
        assert !InheritsAt(list, k, i);
      }
      assert Installed(splitters, route);
    }
  }

  lemma {:induction false} UniqueRouteInstalled(list: seq<ResolvedRoute>, k: nat, i: nat)
    requires Compilable(list) && OnlyOneNamed(list, k) && i < |list[k].rules|
    ensures list[k].name in RouterIndex(list) && RouterIndex(list)[list[k].name] == RouterEntry(RouterOf(list[k]))
    ensures Lookup(SplitterIndex(list), VirtualName(list[k].name, i)) ==
            SplitterOf(list[k].name, list[k].namespace, list[k].meta, i, list[k].rules[i])
  {
    LastRouterKept(list, k);
    LookupIsLastSplitter(list, list[k].name, i);
    LastSplitterAt(list, k, i);
    NoneNamedNoSplitter(list[..k], list[k].name, i);
  }

  // ----- The meaning of the entries computed for a gateway ---------------------------------------------

  /** host is named by some HTTP route. */
  ghost predicate ListedIn(routes: seq<ResolvedRoute>, host: string) {
    exists i | 0 <= i < |routes| :: routes[i].HTTPRoute? && host in routes[i].hostnames
  }

  ghost predicate Lists(l: ResolvedListener, host: string) {
    ListedIn(l.routes, host)
  }

  /** route is the consolidated route of listener l for host. */
  ghost predicate ConsolidatedFor(route: ResolvedRoute, g: ResolvedGateway, crc: string -> nat, l: ResolvedListener,
                                  host: string) {
    && Consolidates(route, Collected(l.routes, host))
    && route.name == RouterName(g.id.service, crc, host)
    && route.namespace == g.id.consulNamespace
    && route.meta == g.meta
    && route.hostnames == [host]
  }

  /** Where each consolidated route comes from: the listener's position and the host. */
  datatype Origin = Origin(listener: nat, host: string)

  /** list holds, for each of the first n listeners and each host it lists, exactly one consolidated route. */
  ghost predicate ChainBelow(list: seq<ResolvedRoute>, origins: seq<Origin>, g: ResolvedGateway, crc: string -> nat,
                             n: nat) {
    && |origins| == |list| && n <= |g.listeners|
    && Compilable(list)
    && (forall k | 0 <= k < |list| ::
          var o := origins[k];
          o.listener < n && Lists(g.listeners[o.listener], o.host) &&
          ConsolidatedFor(list[k], g, crc, g.listeners[o.listener], o.host))
    && (forall j, k | 0 <= j < k < |list| :: origins[j] != origins[k] && origins[j].listener <= origins[k].listener)
    && (forall l, h | 0 <= l < n && Lists(g.listeners[l], h) :: Origin(l, h) in origins)
  }

  ghost predicate Chain(list: seq<ResolvedRoute>, origins: seq<Origin>, g: ResolvedGateway, crc: string -> nat) {
    ChainBelow(list, origins, g, crc, |g.listeners|)
  }

  ghost predicate ChecksumsDiffer(g: ResolvedGateway, crc: string -> nat) {
    forall l, l', h, h' | 0 <= l < |g.listeners| && 0 <= l' < |g.listeners| &&
                          Lists(g.listeners[l], h) && Lists(g.listeners[l'], h') && crc(h) == crc(h') :: h == h'
  }

  /** Listener l lists host, and no later listener does. */
  ghost predicate LastToList(g: ResolvedGateway, l: nat, host: string) {
    && l < |g.listeners| && Lists(g.listeners[l], host)
    && forall l' | l < l' < |g.listeners| :: !Lists(g.listeners[l'], host)
  }

  ghost predicate ListedOnlyBy(g: ResolvedGateway, l: nat, host: string) {
    && l < |g.listeners| && Lists(g.listeners[l], host)
    && forall l' | 0 <= l' < |g.listeners| && l' != l :: !Lists(g.listeners[l'], host)
  }

  /** The consolidated route of that origin. */
  ghost predicate From(origins: seq<Origin>, k: nat, l: nat, host: string) {
    k < |origins| && origins[k] == Origin(l, host)
  }

  lemma {:induction false} ChainHasHost(list: seq<ResolvedRoute>, origins: seq<Origin>, g: ResolvedGateway,
                                        crc: string -> nat, l: nat, host: string)
    returns (k: nat)
    requires Chain(list, origins, g, crc) && ChecksumsDiffer(g, crc) && LastToList(g, l, host)
    ensures k < |list| && ConsolidatedFor(list[k], g, crc, g.listeners[l], host) && LastNamed(list, k) &&
            From(origins, k, l, host)
    ensures ListedOnlyBy(g, l, host) ==> OnlyOneNamed(list, k)
  {
    assert Origin(l, host) in origins;
    k :| k < |origins| && origins[k] == Origin(l, host);
    forall j | 0 <= j < |list| && j != k && list[j].name == list[k].name
      ensures j < k && origins[j].listener != l && Lists(g.listeners[origins[j].listener], host)
    {
      SameNameIsEarlier(list, origins, g, crc, l, host, k, j);
    }
  }

  lemma {:induction false} SameNameIsEarlier(list: seq<ResolvedRoute>, origins: seq<Origin>, g: ResolvedGateway,
                                             crc: string -> nat, l: nat, host: string, k: nat, j: nat)
    requires Chain(list, origins, g, crc) && ChecksumsDiffer(g, crc) && LastToList(g, l, host)
    requires From(origins, k, l, host) && j < |list| && j != k && list[j].name == list[k].name
    ensures j < k && origins[j].listener != l && Lists(g.listeners[origins[j].listener], host)
  {
    var o := origins[j];
    assert o != origins[k];
    assert ConsolidatedFor(list[j], g, crc, g.listeners[o.listener], o.host);
    assert ConsolidatedFor(list[k], g, crc, g.listeners[l], host);
    RouterNameUnique(g.id.service, crc, o.host, host);
    assert o.host == host;
  }

  /**
   * Whatever a request to a host, and whichever listener that lists the host it comes through: the entries
   * computed for the whole gateway do to it what the routes of the last listener that lists the host
   * prescribe, if and only if the request and these routes meet the condition for one host's router.
   */
  lemma {:induction false} LastListenerDecidesIff(list: seq<ResolvedRoute>, origins: seq<Origin>, g: ResolvedGateway,
                                                  crc: string -> nat, l: nat, host: string, req: Request, re: Regex,
                                                  hasInstances: ResolvedService -> bool)
    requires Chain(list, origins, g, crc) && ChecksumsDiffer(g, crc) && LastToList(g, l, host)
    requires forall k: nat | From(origins, k, l, host) :: !Inherits(list, k)
    requires forall c | c in Candidates(g.listeners[l].routes, host) ::
               WeightsInRange(c.services) && Unsplit(c, SplitterView(SplitterIndex(list)))
    requires forall i: nat ::
               !hasInstances(ResolvedService(g.id.consulNamespace, VirtualName(RouterName(g.id.service, crc, host), i)))
    ensures var name, splitters := RouterName(g.id.service, crc, host), SplitterView(SplitterIndex(list));
            && name in RouterIndex(list) && RouterIndex(list)[name].RouterEntry?
            && (Delivered(RouterOutcome(RouterIndex(list)[name].router, splitters, req, re), hasInstances) ==
                Delivered(Reference(g.listeners[l].routes, host, req, re), hasInstances) <==>
                MeaningKept(Candidates(g.listeners[l].routes, host), req, re, hasInstances))
  {
    var k := ChainHasHost(list, origins, g, crc, l, host);
    LastRouterKept(list, k);
    LastRouteInstalledIff(list, k);
    CompilationPreservesMeaningIff(g.listeners[l].routes, host, list[k], SplitterView(SplitterIndex(list)), req, re,
                                   hasInstances);
  }

  lemma {:induction false} OnlyNamedInheritsNothing(list: seq<ResolvedRoute>, k: nat)
    requires Compilable(list) && OnlyOneNamed(list, k)
    ensures !Inherits(list, k)
  {
    forall i | 0 <= i < |list[k].rules|
      ensures !InheritsAt(list, k, i)
    {
      NoneNamedNoSplitter(list[..k], list[k].name, i);
    }
  }

  /** For a host that a single listener lists nothing is inherited, and that listener's routes decide. */
  lemma {:induction false} GatewayEntriesPreserveMeaningIff(list: seq<ResolvedRoute>, origins: seq<Origin>,
                                                            g: ResolvedGateway, crc: string -> nat, l: nat,
                                                            host: string, req: Request, re: Regex,
                                                            hasInstances: ResolvedService -> bool)
    requires Chain(list, origins, g, crc) && ChecksumsDiffer(g, crc) && ListedOnlyBy(g, l, host)
    requires forall c | c in Candidates(g.listeners[l].routes, host) ::
               WeightsInRange(c.services) && Unsplit(c, SplitterView(SplitterIndex(list)))
    requires forall i: nat ::
               !hasInstances(ResolvedService(g.id.consulNamespace, VirtualName(RouterName(g.id.service, crc, host), i)))
    ensures var name, splitters := RouterName(g.id.service, crc, host), SplitterView(SplitterIndex(list));
            && name in RouterIndex(list) && RouterIndex(list)[name].RouterEntry?
            && (Delivered(RouterOutcome(RouterIndex(list)[name].router, splitters, req, re), hasInstances) ==
                Delivered(Reference(g.listeners[l].routes, host, req, re), hasInstances) <==>
                MeaningKept(Candidates(g.listeners[l].routes, host), req, re, hasInstances))
  {
    var k := ChainHasHost(list, origins, g, crc, l, host);
    OnlyNamedInheritsNothing(list, k);
    forall j: nat | From(origins, j, l, host)
      ensures !Inherits(list, j)
    {
      assert j == k;
    }
    LastListenerDecidesIff(list, origins, g, crc, l, host, req, re, hasInstances);
  }
}
