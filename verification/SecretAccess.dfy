// What the SDS server may come to hold: certificates that the gateway of the asking stream carried when it
// was asked (internal/envoy/handler.go, internal/k8s/reconciler/gateway.go).

module SecretAccess {
  import opened Wrappers
  import opened Gateways
  import opened Binder
  import opened SecretSpec
  import opened SecretProps
  import opened SecretRuns

  /** Node x asked for n and was allowed to. */
  ghost predicate Obtains(a: Action, x: Node, n: Name) {
    a.Request? && a.allowed && a.node == x && n in a.names
  }

  lemma {:induction false} SetResourcesAddsOnlyAsked(m: Manager, names: seq<Name>, node: Node, stale: seq<Name>,
                                                     a: Answers)
    requires IsStale(stale, m, names, node)
    ensures WatchSet(SetResources(m, names, node, stale, a).0, node) <= WatchSet(m, node) + SecretProps.Names(names)
  {
    if node !in m.watchers {
      WatchFacts(m, names, node, a);
    } else {
      var unseen := NewNames(names, m.watchers[node]);
      NewNamesContents(names, m.watchers[node]);
      WatchFacts(m, unseen, node, a);
      UnwatchFacts(Watch(m, unseen, node, a).0, stale, node, a);
    }
  }

  lemma {:induction false} NewWatchIsObtained(s: Server, a: Action, x: Node, n: Name)
    requires Enabled(s, a) && n in WatchSet(Next(s, a).m, x)
    ensures n in WatchSet(s.m, x) || Obtains(a, x, n)
  {
    match a
    case Open(_) =>
    case Request(_, node, names, allowed, stale, answers) =>
      if allowed {
        SetResourcesIsExactWithFrame(s.m, names, node, stale, answers);
        SetResourcesAddsOnlyAsked(s.m, names, node, stale, answers);
      }
    case Close(stream, order, answers) =>
      if stream in s.nodes {
        UnwatchAllFacts(s.m, s.nodes[stream], order, answers);
      }
    case Manage(force, now, answers) =>
      RefreshKeeps(s.m, force, now, answers);
  }

  ghost predicate ObtainedIn(actions: seq<Action>, x: Node, n: Name) {
    exists i | 0 <= i < |actions| :: Obtains(actions[i], x, n)
  }

  lemma {:induction false} WatchedWasObtained(s: Server, actions: seq<Action>, s': Server, x: Node, n: Name)
    requires Run(s, actions, s') && n in WatchSet(s'.m, x)
    ensures n in WatchSet(s.m, x) || ObtainedIn(actions, x, n)
    decreases |actions|
  {
    if actions != [] {
      WatchedWasObtained(Next(s, actions[0]), actions[1..], s', x, n);
      if i :| 0 <= i < |actions[1..]| && Obtains(actions[1..][i], x, n) {
        assert Obtains(actions[i + 1], x, n);
      } else {
        NewWatchIsObtained(s, actions[0], x, n);
      }
    }
  }

  /** gates[i] are the listeners, at that moment, of the gateway that decides on request i; none if it is not stored. */
  ghost predicate Decided(actions: seq<Action>, gates: seq<seq<ListenerState>>) {
    && |gates| == |actions|
    && forall i | 0 <= i < |actions| && actions[i].Request? && actions[i].allowed ::
         forall n | n in actions[i].names :: Carries(gates[i], n)
  }

  /** Some allowed request for n by x was decided by a gateway that carried n. */
  ghost predicate Permitted(actions: seq<Action>, gates: seq<seq<ListenerState>>, x: Node, n: Name)
    requires |gates| == |actions|
  {
    exists i | 0 <= i < |actions| :: Obtains(actions[i], x, n) && Carries(gates[i], n)
  }

  /**
   * In every run, whatever fails and however the gateways change meanwhile: a node watches a name only if it
   * asked for it while its gateway carried it, every certificate held is watched by such a node, and, unless
   * a delete fails, so is every certificate in the cache.
   */
  lemma {:induction false} OnlyPermittedAreHeld(actions: seq<Action>, gates: seq<seq<ListenerState>>, s: Server)
    requires Run(START, actions, s) && Decided(actions, gates)
    ensures forall x: Node, n: Name | n in WatchSet(s.m, x) :: Permitted(actions, gates, x, n)
    ensures forall n | n in s.m.registry :: exists x: Node :: n in WatchSet(s.m, x)
    ensures (forall i | 0 <= i < |actions| :: DeletesSucceed(actions[i])) ==>
              forall n | n in s.m.cache :: exists x: Node :: n in WatchSet(s.m, x)
  {
    forall x: Node, n: Name | n in WatchSet(s.m, x)
      ensures Permitted(actions, gates, x, n)
    {
      WatchedWasObtained(START, actions, s, x, n);
      var i :| 0 <= i < |actions| && Obtains(actions[i], x, n);
      assert Carries(gates[i], n);
    }
    RunKeepsInv(START, actions, s);
    forall n | n in s.m.registry
      ensures exists x: Node :: n in WatchSet(s.m, x)
    {
      var x :| x in s.m.registry[n].refs;
      assert x in RefsAt(s.m, n);
      assert n in WatchSet(s.m, x);
    }
    if forall i | 0 <= i < |actions| :: DeletesSucceed(actions[i]) {
      CacheRefinesRegistry(actions, s);
    }
  }
}
