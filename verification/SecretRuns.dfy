// Runs of the SDS server: streams open, request resources and close (internal/envoy/handler.go), and
// certificates are refreshed in between.

module SecretRuns {
  import opened Wrappers
  import opened SecretSpec
  import opened SecretProps

  type Stream = int

  /** open holds the streams with a stored context, nodes the node each stream last named. */
  datatype Server = Server(m: Manager, open: set<Stream>, nodes: map<Stream, Node>, active: int)

  const START := Server(EMPTY, {}, map[], 0)

  datatype Action =
    | Open(stream: Stream)
    | Request(stream: Stream, node: Node, names: seq<Name>, allowed: bool, stale: seq<Name>, answers: Answers)
    | Close(stream: Stream, order: seq<Name>, answers: Answers)
    | Manage(force: bool, now: int, answers: Answers)

  /** Stream ids are not reused while open, and requests come on open streams, naming any node. */
  ghost predicate Enabled(s: Server, a: Action) {
    match a
    case Open(stream) => stream !in s.open
    case Request(stream, node, names, _, stale, _) =>
      stream in s.open && IsStale(stale, s.m, names, node)
    case Close(stream, order, _) =>
      stream in s.open && (stream in s.nodes && s.nodes[stream] in s.m.watchers ==>
                           Orders(order, s.m.watchers[s.nodes[stream]]))
    case Manage(_, _, _) => true
  }

  function Next(s: Server, a: Action): Server {
    match a
    case Open(stream) => s.(open := s.open + {stream}, active := s.active + 1)
    case Request(stream, node, names, allowed, stale, answers) =>
      if !allowed then s
      else s.(nodes := s.nodes[stream := node], m := SetResources(s.m, names, node, stale, answers).0)
    case Close(stream, order, answers) =>
      var s' := if stream in s.nodes
                then s.(nodes := s.nodes - {stream}, m := UnwatchAll(s.m, s.nodes[stream], order, answers).0)
                else s;
      if stream in s.open then s'.(open := s.open - {stream}, active := s.active - 1) else s'
    case Manage(force, now, answers) => s.(m := Refresh(s.m, force, now, answers))
  }

  ghost predicate Run(s: Server, actions: seq<Action>, s': Server)
    decreases |actions|
  {
    if actions == [] then s' == s else Enabled(s, actions[0]) && Run(Next(s, actions[0]), actions[1..], s')
  }

  // ----- Leak freedom ---------------------------------------------------------------------------------------

  /** Every watched node was named by a stream that has not closed. */
  ghost predicate Owned(s: Server) {
    forall x | x in s.m.watchers :: exists stream: Stream :: stream in s.nodes && s.nodes[stream] == x
  }

  /** What holds throughout every run. */
  ghost predicate Inv(s: Server) {
    Sound(s.m) && s.nodes.Keys <= s.open && s.active == |s.open|
  }

  lemma {:induction false} ActionKeepsInv(s: Server, a: Action)
    requires Inv(s) && Enabled(s, a)
    ensures Inv(Next(s, a))
  {
    match a
    case Open(_) =>
    case Request(_, node, names, allowed, stale, answers) =>
      if allowed { SetResourcesKeepsSound(s.m, names, node, stale, answers); }
    case Close(stream, order, answers) =>
      if stream in s.nodes {
        UnwatchAllFacts(s.m, s.nodes[stream], order, answers);
        FramedSoundness(s.m, Next(s, a).m, s.nodes[stream]);
      }
    case Manage(force, now, answers) =>
      RefreshKeeps(s.m, force, now, answers);
      SameReferences(s.m, Refresh(s.m, force, now, answers));
  }

  lemma {:induction false} RunKeepsInv(s: Server, actions: seq<Action>, s': Server)
    requires Inv(s) && Run(s, actions, s')
    ensures Inv(s')
    decreases |actions|
  {
    if actions != [] {
      ActionKeepsInv(s, actions[0]);
      RunKeepsInv(Next(s, actions[0]), actions[1..], s');
    }
  }

  /** The stream leaves a node that is still watched, and no other stream names that node. */
  ghost predicate Abandons(s: Server, a: Action) {
    && a.Request? && a.allowed
    && a.stream in s.nodes && s.nodes[a.stream] != a.node && s.nodes[a.stream] in s.m.watchers
    && forall t: Stream | t in s.nodes && t != a.stream :: s.nodes[t] != s.nodes[a.stream]
  }

  /** A stream naming a new node leaks the old one, unless that is not watched or another stream names it. */
  lemma {:induction false} RenamingKeepsOwnedIff(s: Server, a: Action)
    requires Owned(s) && a.Request? && a.allowed && Enabled(s, a)
    ensures Owned(Next(s, a)) <==> !Abandons(s, a)
  {
    var s' := Next(s, a);
    SetResourcesIsExactWithFrame(s.m, a.names, a.node, a.stale, a.answers);
    if Abandons(s, a) {
      var previous := s.nodes[a.stream];
      assert previous in s'.m.watchers;
      assert forall t: Stream | t in s'.nodes :: s'.nodes[t] != previous;
    } else {
      forall x | x in s'.m.watchers
        ensures exists stream: Stream :: stream in s'.nodes && s'.nodes[stream] == x
      {
        if x == a.node {
          assert a.stream in s'.nodes;
        } else {
          assert x in s.m.watchers;
          var t: Stream :| t in s.nodes && s.nodes[t] == x;
          if t == a.stream {
            var u: Stream :| u in s.nodes && u != a.stream && s.nodes[u] == x;
            assert u in s'.nodes && s'.nodes[u] == x;
          } else {
            assert t in s'.nodes && s'.nodes[t] == x;
          }
        }
      }
    }
  }

  lemma {:induction false} CloseKeepsOwned(s: Server, a: Action)
    requires Owned(s) && a.Close? && Enabled(s, a)
    ensures Owned(Next(s, a))
  {
    var s' := Next(s, a);
    if a.stream in s.nodes {
      var node := s.nodes[a.stream];
      UnwatchAllFacts(s.m, node, a.order, a.answers);
      forall x | x in s'.m.watchers
        ensures exists stream: Stream :: stream in s'.nodes && s'.nodes[stream] == x
      {
        assert x != node && x in s.m.watchers;
        var stream: Stream :| stream in s.nodes && s.nodes[stream] == x;
        assert stream in s'.nodes && s'.nodes[stream] == x;
      }
    }
  }

  lemma {:induction false} ActionKeepsOwnedIff(s: Server, a: Action)
    requires Owned(s) && Enabled(s, a)
    ensures Owned(Next(s, a)) <==> !Abandons(s, a)
  {
    match a
    case Open(_) =>
      assert Owned(Next(s, a));
    case Request(_, _, _, allowed, _, _) =>
      if allowed { RenamingKeepsOwnedIff(s, a); }
    case Close(_, _, _) =>
      CloseKeepsOwned(s, a);
    case Manage(force, now, answers) =>
      RefreshKeeps(s.m, force, now, answers);
      assert Owned(Next(s, a));
  }

  /** No action of the run abandons a node. */
  ghost predicate NoneAbandoned(s: Server, actions: seq<Action>)
    decreases |actions|
  {
    actions == [] || (!Abandons(s, actions[0]) && NoneAbandoned(Next(s, actions[0]), actions[1..]))
  }

  /** In every state of the run the watched nodes belong to streams. */
  ghost predicate OwnedThroughout(s: Server, actions: seq<Action>)
    decreases |actions|
  {
    Owned(s) && (actions == [] || OwnedThroughout(Next(s, actions[0]), actions[1..]))
  }

  lemma {:induction false} OwnedThroughoutIff(s: Server, actions: seq<Action>, s': Server)
    requires Owned(s) && Run(s, actions, s')
    ensures OwnedThroughout(s, actions) <==> NoneAbandoned(s, actions)
    ensures NoneAbandoned(s, actions) ==> Owned(s')
    decreases |actions|
  {
    if actions != [] {
      var next := Next(s, actions[0]);
      ActionKeepsOwnedIff(s, actions[0]);
      if Owned(next) {
        OwnedThroughoutIff(next, actions[1..], s');
      }
    }
  }

  /**
   * With any fetch and any cache write failing, and streams changing their nodes: every registered
   * certificate has a reference and every reference is a watched node listing it. Watched nodes
   * belong to open streams throughout exactly when no stream abandons a node; then nothing is
   * watched and nothing registered once all streams have closed.
   */
  lemma {:induction false} LeakFreedom(actions: seq<Action>, s: Server)
    requires Run(START, actions, s)
    ensures Sound(s.m) && s.active == |s.open|
    ensures OwnedThroughout(START, actions) <==> NoneAbandoned(START, actions)
    ensures NoneAbandoned(START, actions) ==>
              forall x | x in s.m.watchers :: exists stream: Stream ::
                stream in s.nodes && stream in s.open && s.nodes[stream] == x
    ensures NoneAbandoned(START, actions) && s.open == {} ==> s.m.watchers == map[] && s.m.registry == map[]
  {
    RunKeepsInv(START, actions, s);
    OwnedThroughoutIff(START, actions, s);
    if NoneAbandoned(START, actions) {
      forall x | x in s.m.watchers
        ensures exists stream: Stream :: stream in s.nodes && stream in s.open && s.nodes[stream] == x
      {
        var stream: Stream :| stream in s.nodes && s.nodes[stream] == x;
        assert stream in s.open;
      }
      forall n | n in s.m.registry
        ensures exists x: Node :: x in s.m.watchers
      {
        var x :| x in s.m.registry[n].refs;
        assert x in RefsAt(s.m, n);
      }
    }
  }

  // ----- The cache refines the registry -----------------------------------------------------------------------

  ghost predicate DeletesSucceed(a: Action) {
    (a.Request? || a.Close?) ==> forall n: Name :: a.answers.remove(n)
  }

  /** Nothing fails: every allowed request is served. */
  ghost predicate Served(s: Server, a: Action) {
    DeletesSucceed(a) && (a.Request? && a.allowed ==> SetResources(s.m, a.names, a.node, a.stale, a.answers).1)
  }

  lemma {:induction false} ActionKeepsCache(s: Server, a: Action)
    requires Enabled(s, a) && DeletesSucceed(a) && CacheWithin(s.m, {})
    ensures CacheWithin(Next(s, a).m, {})
    ensures Served(s, a) && CacheCovers(s.m, {}) ==> CacheCovers(Next(s, a).m, {})
  {
    match a
    case Open(_) =>
    case Request(_, node, names, allowed, stale, answers) =>
      SetResourcesKeepsCache(s.m, names, node, stale, answers);
    case Close(stream, order, answers) =>
      if stream in s.nodes {
        UnwatchAllFacts(s.m, s.nodes[stream], order, answers);
      }
    case Manage(force, now, answers) =>
      RefreshKeeps(s.m, force, now, answers);
  }

  lemma {:induction false} RunKeepsCache(s: Server, actions: seq<Action>, s': Server)
    requires CacheWithin(s.m, {}) && Run(s, actions, s')
    requires forall i | 0 <= i < |actions| :: DeletesSucceed(actions[i])
    ensures CacheWithin(s'.m, {})
    decreases |actions|
  {
    if actions != [] {
      ActionKeepsCache(s, actions[0]);
      RunKeepsCache(Next(s, actions[0]), actions[1..], s');
    }
  }

  /** With any fetch or update failing, deletes apart, cached names are registered ones with equal contents. */
  lemma {:induction false} CacheRefinesRegistry(actions: seq<Action>, s: Server)
    requires Run(START, actions, s) && forall i | 0 <= i < |actions| :: DeletesSucceed(actions[i])
    ensures forall n | n in s.m.cache :: n in s.m.registry && s.m.cache[n] == s.m.registry[n].secret
    ensures NoneAbandoned(START, actions) && s.open == {} ==> s.m.cache == map[]
  {
    RunKeepsCache(START, actions, s);
    LeakFreedom(actions, s);
  }

  /** Every action of the run is served. */
  ghost predicate AllServed(s: Server, actions: seq<Action>)
    decreases |actions|
  {
    actions == [] || (Served(s, actions[0]) && AllServed(Next(s, actions[0]), actions[1..]))
  }

  lemma {:induction false} ServedRunKeepsCache(s: Server, actions: seq<Action>, s': Server)
    requires CacheWithin(s.m, {}) && CacheCovers(s.m, {}) && Run(s, actions, s') && AllServed(s, actions)
    ensures CacheWithin(s'.m, {}) && CacheCovers(s'.m, {})
    decreases |actions|
  {
    if actions != [] {
      ActionKeepsCache(s, actions[0]);
      ServedRunKeepsCache(Next(s, actions[0]), actions[1..], s');
    }
  }

  /** In runs in which nothing fails the cache is exactly the registry. */
  lemma {:induction false} CacheEqualsRegistryWhenServed(actions: seq<Action>, s: Server)
    requires Run(START, actions, s) && AllServed(START, actions)
    ensures s.m.cache == map n | n in s.m.registry :: s.m.registry[n].secret
  {
    ServedRunKeepsCache(START, actions, s);
  }

  /** From any reachable state, a forced refresh in which everything succeeds makes the cache the registry. */
  lemma {:induction false} RefreshRepairsReachable(actions: seq<Action>, s: Server, now: int, a: Answers)
    requires Run(START, actions, s) && forall i | 0 <= i < |actions| :: DeletesSucceed(actions[i])
    requires forall n | n in s.m.registry :: a.fetch(n).Some? && a.update(n)
    ensures var m' := Next(s, Manage(true, now, a)).m; m'.cache == map n | n in m'.registry :: m'.registry[n].secret
  {
    RunKeepsCache(START, actions, s);
    ForcedRefreshRepairs(s.m, now, a);
  }

  // ----- Watchers and references are inverse ---------------------------------------------------------------------

  ghost predicate FetchesSucceed(a: Action) {
    a.Request? ==> forall n | n in a.names :: a.answers.fetch(n).Some?
  }

  lemma {:induction false} ActionKeepsComplete(s: Server, a: Action)
    requires Inv(s) && Enabled(s, a) && FetchesSucceed(a) && Complete(s.m)
    ensures Complete(Next(s, a).m)
  {
    match a
    case Open(_) =>
    case Request(_, node, names, allowed, stale, answers) =>
      SetResourcesKeepsComplete(s.m, names, node, stale, answers);
    case Close(stream, order, answers) =>
      if stream in s.nodes {
        UnwatchAllFacts(s.m, s.nodes[stream], order, answers);
        FramedCompleteness(s.m, Next(s, a).m, s.nodes[stream]);
      }
    case Manage(force, now, answers) =>
      RefreshKeeps(s.m, force, now, answers);
      SameReferences(s.m, Refresh(s.m, force, now, answers));
  }

  lemma {:induction false} RunKeepsComplete(s: Server, actions: seq<Action>, s': Server)
    requires Inv(s) && Complete(s.m) && Run(s, actions, s')
    requires forall i | 0 <= i < |actions| :: FetchesSucceed(actions[i])
    ensures Complete(s'.m)
    decreases |actions|
  {
    if actions != [] {
      ActionKeepsInv(s, actions[0]);
      ActionKeepsComplete(s, actions[0]);
      RunKeepsComplete(Next(s, actions[0]), actions[1..], s');
    }
  }

  /** In runs without fetch failures a node watches a name exactly when the certificate refers to it. */
  lemma {:induction false} WatchersAndReferencesAreInverse(actions: seq<Action>, s: Server, x: Node, n: Name)
    requires Run(START, actions, s) && forall i | 0 <= i < |actions| :: FetchesSucceed(actions[i])
    ensures x in s.m.watchers && n in s.m.watchers[x] <==> n in s.m.registry && x in s.m.registry[n].refs
  {
    RunKeepsInv(START, actions, s);
    RunKeepsComplete(START, actions, s);
    assert n in WatchSet(s.m, x) <==> x in RefsAt(s.m, n);
  }

  // ----- Nodes shared by streams ------------------------------------------------------------------------------

  /** Closing a stream leaves other streams' nodes watching what they did, unless sharers of its node watch anything. */
  lemma {:induction false} CloseSparesOthersIff(s: Server, a: Action)
    requires a.Close? && Enabled(s, a) && a.stream in s.nodes
    ensures (forall t | t in s.nodes && t != a.stream ::
               WatchSet(Next(s, a).m, s.nodes[t]) == WatchSet(s.m, s.nodes[t])) <==>
            (forall t | t in s.nodes && t != a.stream && s.nodes[t] == s.nodes[a.stream] ::
               WatchSet(s.m, s.nodes[t]) == {})
  {
    UnwatchAllFacts(s.m, s.nodes[a.stream], a.order, a.answers);
    var m' := Next(s, a).m;
    forall t | t in s.nodes
      ensures WatchSet(m', s.nodes[t]) == if s.nodes[t] == s.nodes[a.stream] then {} else WatchSet(s.m, s.nodes[t])
    {}
  }
}
