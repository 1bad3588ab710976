// The secret manager and the request handler as objects (internal/envoy/secrets.go,
// internal/envoy/handler.go), with the source's loops, proved against SecretSpec and SecretRuns. Each
// call is one atomic step; its answers from the outside come as a parameter.

module Secrets {
  import opened Wrappers
  import opened SecretSpec
  import opened SecretProps
  import B = Binder
  import R = SecretRuns

  class SecretManager {
    var watchers: map<Node, set<Name>>
    var registry: map<Name, Certificate>
    var cache: map<Name, Secret>

    function State(): Manager
      reads this
    {
      Manager(watchers, registry, cache)
    }

    constructor ()
      ensures State() == EMPTY
    {
      watchers, registry, cache := map[], map[], map[];
    }

    method Watch(names: seq<Name>, node: Node, a: Answers) returns (ok: bool)
      modifies this
      ensures (State(), ok) == SecretSpec.Watch(old(State()), names, node, a)
    {
      if node !in watchers {
        watchers := watchers[node := {}];
      }
      ghost var start := State();
      assert start == NoteWatch(old(State()), node, {}) by {
        assert WatchSet(old(State()), node) + {} == WatchSet(old(State()), node);
        assert node in old(watchers) ==> old(watchers)[node := old(watchers)[node]] == old(watchers);
      }
      var certificates: seq<Name> := [];
      for i := 0 to |names|
        invariant node in watchers
        invariant WatchNames(start, names, node, a).m == WatchNames(State(), names[i..], node, a).m
        invariant WatchNames(start, names, node, a).ok == WatchNames(State(), names[i..], node, a).ok
        invariant WatchNames(start, names, node, a).fetched ==
                  certificates + WatchNames(State(), names[i..], node, a).fetched
      {
        var n := names[i];
        assert names[i..][0] == n && names[i..][1..] == names[i + 1..];
        watchers := watchers[node := watchers[node] + {n}];
        if n in registry {
          registry := registry[n := registry[n].(refs := registry[n].refs + {node})];
          continue;
        }
        match a.fetch(n) {
          case None =>
            return false;
          case Some(answer) =>
            registry := registry[n := Certificate(answer.0, answer.1, {node})];
            certificates := certificates + [n];
        }
      }
      assert names[|names|..] == [];
      assert WatchNames(start, names, node, a) == WatchResult(State(), certificates, true);
      FetchedAreRegistered(start, names, node, a);
      ok := UpdateCertificates(certificates, a);
    }

    /** Stops at the first update that fails. */
    method UpdateCertificates(names: seq<Name>, a: Answers) returns (ok: bool)
      requires forall i | 0 <= i < |names| :: names[i] in registry
      modifies this`cache
      ensures (State(), ok) == PushAll(old(State()), names, a)
    {
      for i := 0 to |names|
        invariant PushAll(old(State()), names, a) == PushAll(State(), names[i..], a)
      {
        assert names[i..][0] == names[i] && names[i..][1..] == names[i + 1..];
        if !a.update(names[i]) {
          return false;
        }
        cache := cache[names[i] := registry[names[i]].secret];
      }
      assert names[|names|..] == [];
      return true;
    }

    /** Stops at the first deletion that fails. */
    method RemoveCertificates(names: seq<Name>, a: Answers) returns (ok: bool)
      modifies this`cache
      ensures (State(), ok) == RemoveAll(old(State()), names, a)
    {
      for i := 0 to |names|
        invariant RemoveAll(old(State()), names, a) == RemoveAll(State(), names[i..], a)
      {
        assert names[i..][0] == names[i] && names[i..][1..] == names[i + 1..];
        if !a.remove(names[i]) {
          return false;
        }
        cache := cache - {names[i]};
      }
      assert names[|names|..] == [];
      return true;
    }

    /** The loop shared by Unwatch and UnwatchAll; returns the certificates left without references. */
    method DropReferences(names: seq<Name>, node: Node, forget: bool) returns (collected: seq<Name>)
      requires node in watchers
      modifies this
      ensures (State(), collected) == DropNames(old(State()), names, node, forget)
    {
      collected := [];
      for i := 0 to |names|
        invariant node in watchers
        invariant DropNames(old(State()), names, node, forget).0 == DropNames(State(), names[i..], node, forget).0
        invariant DropNames(old(State()), names, node, forget).1 ==
                  collected + DropNames(State(), names[i..], node, forget).1
      {
        var n := names[i];
        assert names[i..][0] == n && names[i..][1..] == names[i + 1..];
        ghost var before, done := State(), collected;
        if forget {
          watchers := watchers[node := watchers[node] - {n}];
        }
        if n in registry {
          var refs := registry[n].refs - {node};
          if refs == {} {
            registry := registry - {n};
            collected := collected + [n];
          } else {
            registry := registry[n := registry[n].(refs := refs)];
          }
        }
        assert State() == DropOne(before, n, node, forget);
        assert collected == done + if Collects(before, n, node) then [n] else [];
      }
      assert names[|names|..] == [];
      assert DropNames(old(State()), names, node, forget).1 == collected;
    }

    method Unwatch(names: seq<Name>, node: Node, a: Answers) returns (ok: bool)
      modifies this
      ensures (State(), ok) == SecretSpec.Unwatch(old(State()), names, node, a)
    {
      if node !in watchers {
        return true;
      }
      var collected := DropReferences(names, node, true);
      if node in watchers && watchers[node] == {} {
        watchers := watchers - {node};
      }
      ok := RemoveCertificates(collected, a);
    }

    /** order is how the node's watch set happened to be visited. */
    method UnwatchAll(node: Node, a: Answers) returns (ok: bool, ghost order: seq<Name>)
      modifies this
      ensures node in old(watchers) ==> Orders(order, old(watchers)[node])
      ensures (State(), ok) == SecretSpec.UnwatchAll(old(State()), node, order, a)
    {
      if node !in watchers {
        return true, [];
      }
      var names := ListNames(watchers[node]);
      var collected := DropReferences(names, node, false);
      watchers := watchers - {node};
      ok := RemoveCertificates(collected, a);
      order := names;
    }

    /** stale is how the names no longer requested happened to be visited. */
    method SetResourcesForNode(names: seq<Name>, node: Node, a: Answers) returns (ok: bool, ghost stale: seq<Name>)
      modifies this
      ensures IsStale(stale, old(State()), names, node)
      ensures (State(), ok) == SetResources(old(State()), names, node, stale, a)
    {
      stale := [];
      if node !in watchers {
        ok := Watch(names, node, a);
        return;
      }
      var watched := watchers[node];
      var watch: seq<Name> := [];
      var keep: set<Name> := {};
      for i := 0 to |names|
        invariant watch == NewNames(names[..i], watched)
        invariant keep == watched * SecretProps.Names(names[..i])
      {
        assert names[..i + 1][..i] == names[..i];
        assert SecretProps.Names(names[..i + 1]) == SecretProps.Names(names[..i]) + {names[i]};
        if names[i] !in watched {
          watch := watch + [names[i]];
        } else {
          keep := keep + {names[i]};
        }
      }
      assert names[..|names|] == names;
      var unwatch := ListNames(watched - keep);
      assert watched - keep == watched - set n | n in names;
      stale := unwatch;
      ok := Watch(watch, node, a);
      if ok {
        ok := Unwatch(unwatch, node, a);
      }
    }

    /** One certificate: fetched and pushed if it is due, and kept as it is if either fails. */
    method RefreshOne(n: Name, force: bool, now: int, a: Answers)
      requires n in registry
      modifies this`registry, this`cache
      ensures registry == old(registry)[n := AfterRefresh(old(registry)[n], n, force, now, a)]
      ensures cache == if Renews(old(registry)[n], n, force, now, a) then old(cache)[n := a.fetch(n).value.0]
                       else old(cache)
    {
      assert registry[n := registry[n]] == registry;
      if Due(registry[n], force, now) && a.fetch(n).Some? && a.update(n) {
        var answer := a.fetch(n).value;
        cache := cache[n := answer.0];
        registry := registry[n := registry[n].(secret := answer.0, expires := answer.1)];
      }
    }

    /** Visits the registry in any order; a certificate that cannot be fetched or pushed is left alone. */
    method Manage(force: bool, now: int, a: Answers)
      modifies this
      ensures State() == Refresh(old(State()), force, now, a)
      ensures RefreshedByClock(old(State()), State(), force, now, a)
    {
      ghost var m := State();
      RefreshByClock(m, force, now, a);
      var rest := registry.Keys;
      RefreshNone(m, force, now, a);
      while rest != {}
        invariant rest <= m.registry.Keys && watchers == m.watchers
        invariant registry == RegistrySome(m, m.registry.Keys - rest, force, now, a)
        invariant cache == CacheSome(m, m.registry.Keys - rest, force, now, a)
        decreases rest
      {
        var n :| n in rest;
        RegistryOneMore(m, m.registry.Keys - rest, n, force, now, a);
        CacheOneMore(m, m.registry.Keys - rest, n, force, now, a);
        assert m.registry.Keys - (rest - {n}) == (m.registry.Keys - rest) + {n};
        rest := rest - {n};
        RefreshOne(n, force, now, a);
      }
      RefreshEvery(m, force, now, a);
    }
  }

  predicate Renews(c: Certificate, n: Name, force: bool, now: int, a: Answers) {
    Due(c, force, now) && a.fetch(n).Some? && a.update(n)
  }

  function AfterRefresh(c: Certificate, n: Name, force: bool, now: int, a: Answers): Certificate {
    if Renews(c, n, force, now, a) then c.(secret := a.fetch(n).value.0, expires := a.fetch(n).value.1) else c
  }

  /** The registry and the cache once the certificates in done have been visited. */
  ghost function RegistrySome(m: Manager, done: set<Name>, force: bool, now: int, a: Answers): map<Name, Certificate> {
    map n | n in m.registry :: if n in done then AfterRefresh(m.registry[n], n, force, now, a) else m.registry[n]
  }

  ghost function RenewedSome(m: Manager, done: set<Name>, force: bool, now: int, a: Answers): map<Name, Secret> {
    map n | n in m.registry && n in done && Renews(m.registry[n], n, force, now, a) :: a.fetch(n).value.0
  }

  ghost function CacheSome(m: Manager, done: set<Name>, force: bool, now: int, a: Answers): map<Name, Secret> {
    m.cache + RenewedSome(m, done, force, now, a)
  }

  lemma {:induction false} RefreshNone(m: Manager, force: bool, now: int, a: Answers)
    ensures RegistrySome(m, m.registry.Keys - m.registry.Keys, force, now, a) == m.registry
    ensures CacheSome(m, m.registry.Keys - m.registry.Keys, force, now, a) == m.cache
  {}

  lemma {:induction false} RefreshEvery(m: Manager, force: bool, now: int, a: Answers)
    ensures RegistrySome(m, m.registry.Keys - {}, force, now, a) == Refresh(m, force, now, a).registry
    ensures CacheSome(m, m.registry.Keys - {}, force, now, a) == Refresh(m, force, now, a).cache
  {
    var every := map n | n in m.registry && Refreshed(m, n, force, now, a) :: a.fetch(n).value.0;
    assert RenewedSome(m, m.registry.Keys - {}, force, now, a) == every;
    assert Refresh(m, force, now, a).cache == m.cache + every;
  }

  lemma {:induction false} RegistryOneMore(m: Manager, done: set<Name>, n: Name, force: bool, now: int, a: Answers)
    requires n in m.registry && n !in done
    ensures RegistrySome(m, done, force, now, a)[n] == m.registry[n]
    ensures RegistrySome(m, done + {n}, force, now, a) ==
            RegistrySome(m, done, force, now, a)[n := AfterRefresh(m.registry[n], n, force, now, a)]
  {}

  lemma {:induction false} CacheOneMore(m: Manager, done: set<Name>, n: Name, force: bool, now: int, a: Answers)
    requires n in m.registry && n !in done
    ensures CacheSome(m, done + {n}, force, now, a) ==
            if Renews(m.registry[n], n, force, now, a) then CacheSome(m, done, force, now, a)[n := a.fetch(n).value.0]
            else CacheSome(m, done, force, now, a)
  {
    RenewedOneMore(m, done, n, force, now, a);
    if Renews(m.registry[n], n, force, now, a) {
      LaidOver(m.cache, RenewedSome(m, done, force, now, a), n, a.fetch(n).value.0);
    }
  }

  lemma {:induction false} RenewedOneMore(m: Manager, done: set<Name>, n: Name, force: bool, now: int, a: Answers)
    requires n in m.registry && n !in done
    ensures RenewedSome(m, done + {n}, force, now, a) ==
            if Renews(m.registry[n], n, force, now, a) then RenewedSome(m, done, force, now, a)[n := a.fetch(n).value.0]
            else RenewedSome(m, done, force, now, a)
  {}

  lemma {:induction false} LaidOver(c: map<Name, Secret>, s: map<Name, Secret>, n: Name, v: Secret)
    ensures c + s[n := v] == (c + s)[n := v]
  {}

  method ListNames(s: set<Name>) returns (names: seq<Name>)
    ensures Orders(names, s)
  {
    names := [];
    var rest := s;
    while rest != {}
      invariant rest <= s
      invariant Orders(names, s - rest)
      decreases rest
    {
      var n :| n in rest;
      names := names + [n];
      rest := rest - {n};
    }
    assert s - {} == s;
  }

  // ----- The request handler ---------------------------------------------------------------------------------

  class RequestHandler {
    const manager: SecretManager
    var streamContexts: set<R.Stream>
    var nodeMap: map<R.Stream, Node>
    var activeStreams: int

    ghost function State(): R.Server
      reads this, manager
    {
      R.Server(manager.State(), streamContexts, nodeMap, activeStreams)
    }

    constructor ()
      ensures State() == R.START && fresh(manager)
    {
      manager := new SecretManager();
      streamContexts, nodeMap, activeStreams := {}, map[], 0;
    }

    method OnStreamOpen(stream: R.Stream)
      modifies this
      ensures State() == R.Next(old(State()), R.Open(stream))
    {
      streamContexts := streamContexts + {stream};
      activeStreams := activeStreams + 1;
    }

    /** gateway is what the store has for the stream; it decides whether the resources may be fetched. */
    method OnStreamRequest(stream: R.Stream, node: Node, resources: seq<Name>, gateway: Option<B.K8sGateway>,
                           a: Answers)
      returns (ok: bool, ghost action: R.Action)
      modifies this, manager
      ensures action.Request? && action.stream == stream && action.node == node && action.names == resources
      ensures action.allowed <==> gateway.Some? && forall n | n in resources :: B.Carries(gateway.value.states, n)
      ensures action.answers == a && IsStale(action.stale, old(manager.State()), resources, node)
      ensures State() == R.Next(old(State()), action)
      ensures ok ==> action.allowed && WatchSet(manager.State(), node) == SecretProps.Names(resources)
    {
      var allowed := false;
      if gateway.Some? {
        allowed := gateway.value.CanFetchSecrets(resources);
      }
      if !allowed {
        ghost var stale := SomeOrder(manager.State(), resources, node);
        return false, R.Request(stream, node, resources, false, stale, a);
      }
      ghost var before := manager.State();
      nodeMap := nodeMap[stream := node];
      ghost var stale;
      ok, stale := manager.SetResourcesForNode(resources, node, a);
      action := R.Request(stream, node, resources, true, stale, a);
      SetResourcesIsExactWithFrame(before, resources, node, stale, a);
    }

    method OnStreamClosed(stream: R.Stream, a: Answers) returns (ghost action: R.Action)
      modifies this, manager
      ensures action.Close? && action.stream == stream && action.answers == a
      ensures stream in old(nodeMap) && old(nodeMap)[stream] in old(manager.watchers) ==>
                Orders(action.order, old(manager.watchers)[old(nodeMap)[stream]])
      ensures State() == R.Next(old(State()), action)
    {
      ghost var order := [];
      if stream in nodeMap {
        var node := nodeMap[stream];
        nodeMap := nodeMap - {stream};
        var _, visited := manager.UnwatchAll(node, a);
        order := visited;
      }
      if stream in streamContexts {
        streamContexts := streamContexts - {stream};
        activeStreams := activeStreams - 1;
      }
      action := R.Close(stream, order, a);
    }
  }

  lemma {:induction false} SomeOrder(m: Manager, names: seq<Name>, node: Node) returns (stale: seq<Name>)
    ensures IsStale(stale, m, names, node)
  {
    stale := [];
    if node in m.watchers {
      stale := Enumerate(m.watchers[node] - set n | n in names);
    }
  }

  lemma {:induction false} Enumerate(s: set<Name>) returns (order: seq<Name>)
    ensures Orders(order, s)
  {
    if s == {} {
      order := [];
    } else {
      var n :| n in s;
      var rest := Enumerate(s - {n});
      order := [n] + rest;
    }
  }
}
