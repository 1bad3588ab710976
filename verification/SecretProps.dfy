// What every operation of the secret manager keeps, and what each achieves.

module SecretProps {
  import opened Wrappers
  import opened SecretSpec

  function RefsAt(m: Manager, n: Name): set<Node> {
    if n in m.registry then m.registry[n].refs else {}
  }

  function Names(s: seq<Name>): set<Name> { set n | n in s }

  // ----- Invariants -------------------------------------------------------------------------------------------

  /** No certificate is kept without a reference, and every reference is a watched node listing the name. */
  ghost predicate Sound(m: Manager) {
    && (forall n | n in m.registry :: m.registry[n].refs != {})
    && (forall n: Name, x: Node | x in RefsAt(m, n) :: x in m.watchers && n in m.watchers[x])
  }

  /** Every watched name is registered with a reference from its watcher: the two maps are inverse. */
  ghost predicate Complete(m: Manager) {
    forall x: Node, n: Name | n in WatchSet(m, x) :: x in RefsAt(m, n)
  }

  /** Whatever is cached is a registered certificate with the registered contents, pending names apart. */
  ghost predicate CacheWithin(m: Manager, pending: set<Name>) {
    forall n | n in m.cache && n !in pending :: n in m.registry && m.cache[n] == m.registry[n].secret
  }

  /** Every registered certificate is cached. */
  ghost predicate CacheCovers(m: Manager, pending: set<Name>) {
    forall n | n in m.registry && n !in pending :: n in m.cache
  }

  /** Nothing but the affairs of node has changed: others watch and refer to what they did. */
  ghost predicate Frame(m: Manager, m': Manager, node: Node) {
    && (forall x: Node | x != node :: (x in m'.watchers <==> x in m.watchers) && WatchSet(m', x) == WatchSet(m, x))
    && (forall n: Name :: RefsAt(m', n) - {node} == RefsAt(m, n) - {node})
  }

  /** The part of soundness that concerns one node, and the references being nonempty. */
  ghost predicate SoundFor(m: Manager, node: Node) {
    && (forall n | n in m.registry :: m.registry[n].refs != {})
    && (forall n: Name | node in RefsAt(m, n) :: node in m.watchers && n in m.watchers[node])
  }

  lemma {:induction false} FramedSoundness(m: Manager, m': Manager, node: Node)
    requires Sound(m) && Frame(m, m', node) && SoundFor(m', node)
    ensures Sound(m')
  {
    forall n: Name, x: Node | x in RefsAt(m', n)
      ensures x in m'.watchers && n in m'.watchers[x]
    {
      if x != node {
        assert x in RefsAt(m', n) - {node};
        assert x in RefsAt(m, n);
        assert WatchSet(m', x) == WatchSet(m, x);
      }
    }
  }

  lemma {:induction false} FramedCompleteness(m: Manager, m': Manager, node: Node)
    requires Complete(m) && Frame(m, m', node)
    requires forall n | n in WatchSet(m', node) :: node in RefsAt(m', n)
    ensures Complete(m')
  {
    forall x: Node, n: Name | n in WatchSet(m', x)
      ensures x in RefsAt(m', n)
    {
      if x != node {
        assert n in WatchSet(m, x);
        assert x in RefsAt(m, n) - {node};
        assert RefsAt(m', n) - {node} == RefsAt(m, n) - {node};
      }
    }
  }

  lemma {:induction false} FrameTransitive(a: Manager, b: Manager, c: Manager, node: Node)
    requires Frame(a, b, node) && Frame(b, c, node)
    ensures Frame(a, c, node)
  {}

  // ----- Watching ------------------------------------------------------------------------------------------------

  /** Registered certificates stay as they are, apart from gaining a reference; the cache is untouched. */
  ghost predicate Grown(m: Manager, m': Manager) {
    && m'.cache == m.cache
    && forall n | n in m.registry :: n in m'.registry && m'.registry[n].secret == m.registry[n].secret &&
                                     m.registry[n].refs <= m'.registry[n].refs
  }

  /** One name of the watch loop, when its certificate is registered or can be fetched. */
  function WatchOne(m: Manager, n: Name, node: Node, a: Answers): Manager
    requires n in m.registry || a.fetch(n).Some?
  {
    var noted := NoteWatch(m, node, {n});
    if n in m.registry then AddRef(noted, n, node) else Register(noted, n, a.fetch(n).value, node)
  }

  lemma {:induction false} WatchOneFacts(m: Manager, n: Name, node: Node, a: Answers)
    requires node in m.watchers && (n in m.registry || a.fetch(n).Some?)
    ensures var m' := WatchOne(m, n, node, a);
            && Frame(m, m', node) && Grown(m, m') && (SoundFor(m, node) ==> SoundFor(m', node))
            && m'.registry.Keys == m.registry.Keys + {n}
            && node in m'.watchers && m'.watchers[node] == m.watchers[node] + {n}
            && node in RefsAt(m', n) && (forall x: Name | x != n :: RefsAt(m', x) == RefsAt(m, x))
  {
    var m' := WatchOne(m, n, node, a);
    forall x: Name | x != n
      ensures RefsAt(m', x) == RefsAt(m, x)
    {}
    forall x: Node | x != node
      ensures WatchSet(m', x) == WatchSet(m, x)
    {}
  }

  lemma {:induction false} NoteFacts(m: Manager, names: set<Name>, node: Node)
    ensures var m' := NoteWatch(m, node, names);
            && Frame(m, m', node) && Grown(m, m') && m'.registry == m.registry &&
               (SoundFor(m, node) ==> SoundFor(m', node))
            && node in m'.watchers && m'.watchers[node] == WatchSet(m, node) + names
  {
    var m' := NoteWatch(m, node, names);
    forall x: Node | x != node
      ensures WatchSet(m', x) == WatchSet(m, x)
    {}
    forall n: Name
      ensures RefsAt(m', n) == RefsAt(m, n)
    {}
  }

  lemma {:induction false} WatchNamesFacts(m: Manager, names: seq<Name>, node: Node, a: Answers)
    requires node in m.watchers
    ensures var r := WatchNames(m, names, node, a);
            && Frame(m, r.m, node) && Grown(m, r.m) && (SoundFor(m, node) ==> SoundFor(r.m, node))
            && r.m.registry.Keys == m.registry.Keys + Names(r.fetched)
            && node in r.m.watchers && m.watchers[node] <= r.m.watchers[node] <= m.watchers[node] + Names(names)
    decreases |names|
  {
    if names != [] {
      var n := names[0];
      assert Names(names) == {n} + Names(names[1..]);
      if n in m.registry || a.fetch(n).Some? {
        var m' := WatchOne(m, n, node, a);
        WatchOneFacts(m, n, node, a);
        WatchNamesFacts(m', names[1..], node, a);
        var rest := WatchNames(m', names[1..], node, a);
        FrameTransitive(m, m', rest.m, node);
        assert Names([n] + rest.fetched) == {n} + Names(rest.fetched);
      } else {
        NoteFacts(m, {n}, node);
      }
    }
  }

  /** Other names keep their references, and the loop fails only if a fetch does. */
  lemma {:induction false} WatchNamesElsewhere(m: Manager, names: seq<Name>, node: Node, a: Answers)
    requires node in m.watchers
    ensures var r := WatchNames(m, names, node, a);
            && (forall n: Name | n !in names :: RefsAt(r.m, n) == RefsAt(m, n))
            && ((forall n | n in names :: a.fetch(n).Some?) ==> r.ok)
    decreases |names|
  {
    if names != [] {
      var n := names[0];
      assert names == [n] + names[1..];
      if n in m.registry || a.fetch(n).Some? {
        WatchOneFacts(m, n, node, a);
        WatchNamesElsewhere(WatchOne(m, n, node, a), names[1..], node, a);
      } else {
        assert forall x: Name :: RefsAt(NoteWatch(m, node, {n}), x) == RefsAt(m, x);
      }
    }
  }

  /** When every fetch succeeds, the node watches, and is referred to by, every name it asked for. */
  lemma {:induction false} WatchNamesAchieves(m: Manager, names: seq<Name>, node: Node, a: Answers)
    requires node in m.watchers && WatchNames(m, names, node, a).ok
    ensures var r := WatchNames(m, names, node, a);
            && node in r.m.watchers && r.m.watchers[node] == m.watchers[node] + Names(names)
            && forall n | n in names || node in RefsAt(m, n) :: node in RefsAt(r.m, n)
    decreases |names|
  {
    if names != [] {
      var n := names[0];
      assert Names(names) == {n} + Names(names[1..]);
      var m' := WatchOne(m, n, node, a);
      WatchOneFacts(m, n, node, a);
      WatchNamesAchieves(m', names[1..], node, a);
      forall x | x in names || node in RefsAt(m, x)
        ensures x in names[1..] || node in RefsAt(m', x)
      {
        if x != n && x in names {
          var i :| 0 <= i < |names| && names[i] == x;
          assert names[1..][i - 1] == x;
        }
        if node in RefsAt(m, x) {
          assert m.registry[x].refs <= m'.registry[x].refs;
        }
      }
    }
  }

  lemma {:induction false} PushFacts(m: Manager, names: seq<Name>, a: Answers)
    requires forall i | 0 <= i < |names| :: names[i] in m.registry
    ensures var (m', ok) := PushAll(m, names, a);
            && m'.watchers == m.watchers && m'.registry == m.registry && m.cache.Keys <= m'.cache.Keys
            && (forall s | CacheWithin(m, s) :: CacheWithin(m', s))
            && (ok ==> Names(names) <= m'.cache.Keys)
    decreases |names|
  {
    if names != [] && a.update(names[0]) {
      var n := names[0];
      var m1 := m.(cache := m.cache[n := m.registry[n].secret]);
      PushFacts(m1, names[1..], a);
      forall s | CacheWithin(m, s)
        ensures CacheWithin(m1, s)
      {}
      assert Names(names) == {n} + Names(names[1..]);
    }
  }

  lemma {:induction false} WatchFacts(m: Manager, names: seq<Name>, node: Node, a: Answers)
    ensures var (m', ok) := Watch(m, names, node, a);
            && Frame(m, m', node) && (SoundFor(m, node) ==> SoundFor(m', node))
            && node in m'.watchers && WatchSet(m, node) <= WatchSet(m', node) <= WatchSet(m, node) + Names(names)
            && (CacheWithin(m, {}) ==> CacheWithin(m', {}))
            && (ok && CacheCovers(m, {}) ==> CacheCovers(m', {}))
            && (ok || (forall n | n in names :: a.fetch(n).Some?) ==>
                  WatchSet(m', node) == WatchSet(m, node) + Names(names) &&
                  forall n | n in names || node in RefsAt(m, n) :: node in RefsAt(m', n))
            && (forall n: Name | n !in names :: RefsAt(m', n) == RefsAt(m, n))
  {
    var noted := NoteWatch(m, node, {});
    NoteFacts(m, {}, node);
    WatchNamesFacts(noted, names, node, a);
    WatchNamesElsewhere(noted, names, node, a);
    FetchedAreRegistered(noted, names, node, a);
    var r := WatchNames(noted, names, node, a);
    FrameTransitive(m, noted, r.m, node);
    if r.ok {
      WatchNamesAchieves(noted, names, node, a);
      PushFacts(r.m, r.fetched, a);
      PushKeepsFrame(m, r.m, PushAll(r.m, r.fetched, a).0, node);
      assert CacheWithin(m, {}) ==> CacheWithin(r.m, {});
    }
  }

  lemma {:induction false} PushKeepsFrame(m: Manager, r: Manager, m': Manager, node: Node)
    requires Frame(m, r, node) && m'.watchers == r.watchers && m'.registry == r.registry
    ensures Frame(m, m', node) && (SoundFor(r, node) ==> SoundFor(m', node))
    ensures forall n: Name :: RefsAt(m', n) == RefsAt(r, n)
    ensures WatchSet(m', node) == WatchSet(r, node)
  {
    forall x: Node
      ensures WatchSet(m', x) == WatchSet(r, x)
    {}
    forall n: Name
      ensures RefsAt(m', n) == RefsAt(r, n)
    {}
  }

  // ----- Unwatching ------------------------------------------------------------------------------------------------

  /** The node's references at names are gone, with the certificates left without any; the rest stays. */
  ghost predicate Dropped(m: Manager, m': Manager, names: set<Name>, node: Node) {
    && m'.cache == m.cache
    && (forall n: Name :: n in m'.registry <==> n in m.registry && (n in names ==> m.registry[n].refs - {node} != {}))
    && (forall n | n in m'.registry ::
          m'.registry[n] == if n in names then m.registry[n].(refs := m.registry[n].refs - {node}) else m.registry[n])
  }

  function DropOne(m: Manager, n: Name, node: Node, forget: bool): Manager {
    DropRef(if forget then Forget(m, n, node) else m, n, node)
  }

  lemma {:induction false} DropOneFacts(m: Manager, n: Name, node: Node, forget: bool)
    ensures var m' := DropOne(m, n, node, forget);
            && Dropped(m, m', {n}, node)
            && m'.watchers == (if forget && node in m.watchers then m.watchers[node := m.watchers[node] - {n}]
                               else m.watchers)
            && m.registry.Keys - m'.registry.Keys == (if Collects(m, n, node) then {n} else {})
  {}

  lemma {:induction false} DroppedCompose(a: Manager, b: Manager, c: Manager, n: Name, rest: set<Name>, node: Node)
    requires Dropped(a, b, {n}, node) && Dropped(b, c, rest, node)
    ensures Dropped(a, c, {n} + rest, node)
  {
    forall x | x in a.registry
      ensures (a.registry[x].refs - {node}) - {node} == a.registry[x].refs - {node}
    {}
  }

  function Struck(watchers: map<Node, set<Name>>, names: set<Name>, node: Node, forget: bool): map<Node, set<Name>> {
    if forget && node in watchers then watchers[node := watchers[node] - names] else watchers
  }

  lemma {:induction false} DropNamesWatchers(m: Manager, names: seq<Name>, node: Node, forget: bool)
    ensures DropNames(m, names, node, forget).0.watchers == Struck(m.watchers, Names(names), node, forget)
    decreases |names|
  {
    if names == [] {
      if node in m.watchers {
        assert m.watchers[node] - Names(names) == m.watchers[node];
        assert m.watchers[node := m.watchers[node]] == m.watchers;
      }
    } else {
      var n := names[0];
      DropOneFacts(m, n, node, forget);
      DropNamesWatchers(DropOne(m, n, node, forget), names[1..], node, forget);
      if forget && node in m.watchers {
        assert (m.watchers[node] - {n}) - Names(names[1..]) == m.watchers[node] - Names(names);
      }
    }
  }

  lemma {:induction false} DropNamesFacts(m: Manager, names: seq<Name>, node: Node, forget: bool)
    ensures var (m', collected) := DropNames(m, names, node, forget);
            && Dropped(m, m', Names(names), node)
            && Names(collected) == m.registry.Keys - m'.registry.Keys
    decreases |names|
  {
    if names != [] {
      var n := names[0];
      var m1 := DropOne(m, n, node, forget);
      DropOneFacts(m, n, node, forget);
      DropNamesFacts(m1, names[1..], node, forget);
      var (m', rest) := DropNames(m1, names[1..], node, forget);
      assert Names(names) == {n} + Names(names[1..]);
      DroppedCompose(m, m1, m', n, Names(names[1..]), node);
      var first := if Collects(m, n, node) then [n] else [];
      assert Names(first + rest) == Names(first) + Names(rest);
      assert m'.registry.Keys <= m1.registry.Keys <= m.registry.Keys;
    }
  }

  lemma {:induction false} RemoveFacts(m: Manager, names: seq<Name>, a: Answers)
    ensures var (m', ok) := RemoveAll(m, names, a);
            && m'.watchers == m.watchers && m'.registry == m.registry
            && (CacheWithin(m, Names(names)) && ok ==> CacheWithin(m', {}))
            && (forall n | n in m.cache && n !in names :: n in m'.cache)
            && ((forall n: Name :: a.remove(n)) ==> ok)
    decreases |names|
  {
    if names == [] {
      assert Names(names) == {};
    } else if a.remove(names[0]) {
      var n := names[0];
      var m1 := m.(cache := m.cache - {n});
      assert Names(names) == {n} + Names(names[1..]);
      assert CacheWithin(m, Names(names)) ==> CacheWithin(m1, Names(names[1..]));
      RemoveFacts(m1, names[1..], a);
      forall x | x in m.cache && x !in names
        ensures x in m1.cache && x !in names[1..]
      {
        assert names == [n] + names[1..];
      }
    }
  }

  /** Dropping the node's references changes nothing for the others. */
  lemma {:induction false} DroppedFrame(m: Manager, m': Manager, names: set<Name>, node: Node)
    requires Dropped(m, m', names, node)
    requires forall x: Node | x != node :: (x in m'.watchers <==> x in m.watchers) && WatchSet(m', x) == WatchSet(m, x)
    ensures Frame(m, m', node)
  {
    forall n: Name
      ensures RefsAt(m', n) - {node} == RefsAt(m, n) - {node}
    {}
  }

  /** What cleaning up leaves of the cache's invariants, when the deletions succeed. */
  lemma {:induction false} CleanUp(m: Manager, m': Manager, names: set<Name>, node: Node, collected: seq<Name>,
                                   a: Answers)
    requires Dropped(m, m', names, node) && Names(collected) == m.registry.Keys - m'.registry.Keys
    ensures var (m'', ok) := RemoveAll(m', collected, a);
            && m''.watchers == m'.watchers && m''.registry == m'.registry
            && (CacheWithin(m, {}) && ok ==> CacheWithin(m'', {}))
            && (CacheCovers(m, {}) ==> CacheCovers(m'', {}))
            && ((forall n: Name :: a.remove(n)) ==> ok)
  {
    RemoveFacts(m', collected, a);
    assert CacheWithin(m, {}) ==> CacheWithin(m', Names(collected));
    var (m'', ok) := RemoveAll(m', collected, a);
    if CacheCovers(m, {}) {
      forall n | n in m''.registry
        ensures n in m''.cache
      {
        assert n in m.registry && n !in Names(collected);
      }
    }
  }

  /** Unwatching, before the cache is cleaned up. */
  lemma {:induction false} UnwatchDrops(m: Manager, names: seq<Name>, node: Node)
    returns (m': Manager, collected: seq<Name>)
    requires node in m.watchers
    ensures m' == DropIfIdle(DropNames(m, names, node, true).0, node) && collected == DropNames(m, names, node, true).1
    ensures Dropped(m, m', Names(names), node) && Names(collected) == m.registry.Keys - m'.registry.Keys
    ensures Frame(m, m', node) && (SoundFor(m, node) ==> SoundFor(m', node))
    ensures WatchSet(m', node) == WatchSet(m, node) - Names(names)
  {
    DropNamesFacts(m, names, node, true);
    DropNamesWatchers(m, names, node, true);
    var (m1, c) := DropNames(m, names, node, true);
    collected := c;
    m' := DropIfIdle(m1, node);
    assert Dropped(m, m', Names(names), node);
    forall x: Node | x != node
      ensures (x in m'.watchers <==> x in m.watchers) && WatchSet(m', x) == WatchSet(m, x)
    {}
    DroppedFrame(m, m', Names(names), node);
    assert WatchSet(m1, node) == WatchSet(m, node) - Names(names);
    EmptyDifference(WatchSet(m, node), Names(names));
    DroppedSound(m, m', Names(names), node);
  }

  lemma {:induction false} EmptyDifference(a: set<Name>, b: set<Name>)
    ensures a - b == {} ==> a <= b
  {
    assert a - b == {} ==> forall n | n in a :: n !in a - b;
  }

  lemma {:induction false} UnwatchFacts(m: Manager, names: seq<Name>, node: Node, a: Answers)
    ensures var (m', ok) := Unwatch(m, names, node, a);
            && Frame(m, m', node) && (SoundFor(m, node) ==> SoundFor(m', node))
            && WatchSet(m', node) == WatchSet(m, node) - Names(names)
            && (CacheWithin(m, {}) && ok ==> CacheWithin(m', {}))
            && (CacheCovers(m, {}) ==> CacheCovers(m', {}))
            && (forall n: Name | n !in names :: RefsAt(m', n) == RefsAt(m, n))
            && ((forall n: Name :: a.remove(n)) ==> ok)
  {
    if node in m.watchers {
      var m2, collected := UnwatchDrops(m, names, node);
      CleanUp(m, m2, Names(names), node, collected, a);
      PushKeepsFrame(m, m2, RemoveAll(m2, collected, a).0, node);
    }
  }

  lemma {:induction false} DroppedSound(m: Manager, m': Manager, names: set<Name>, node: Node)
    requires Dropped(m, m', names, node) && WatchSet(m', node) == WatchSet(m, node) - names
    requires node in m'.watchers || WatchSet(m, node) <= names
    ensures SoundFor(m, node) ==> SoundFor(m', node)
  {
    if SoundFor(m, node) {
      forall n: Name | node in RefsAt(m', n)
        ensures node in m'.watchers && n in m'.watchers[node]
      {
        assert n !in names && node in RefsAt(m, n);
      }
    }
  }

  /** Afterwards the node neither watches nor is referred to by anything. */
  lemma {:induction false} UnwatchAllFacts(m: Manager, node: Node, order: seq<Name>, a: Answers)
    requires node in m.watchers ==> Orders(order, m.watchers[node])
    ensures var (m', ok) := UnwatchAll(m, node, order, a);
            && Frame(m, m', node) && node !in m'.watchers
            && (SoundFor(m, node) ==> SoundFor(m', node) && forall n: Name :: node !in RefsAt(m', n))
            && (CacheWithin(m, {}) && ok ==> CacheWithin(m', {}))
            && (CacheCovers(m, {}) ==> CacheCovers(m', {}))
            && ((forall n: Name :: a.remove(n)) ==> ok)
  {
    if node in m.watchers {
      DropNamesFacts(m, order, node, false);
      DropNamesWatchers(m, order, node, false);
      var (m1, collected) := DropNames(m, order, node, false);
      var m2 := m1.(watchers := m1.watchers - {node});
      assert Dropped(m, m2, Names(order), node);
      forall x: Node | x != node
        ensures (x in m2.watchers <==> x in m.watchers) && WatchSet(m2, x) == WatchSet(m, x)
      {}
      DroppedFrame(m, m2, Names(order), node);
      CleanUp(m, m2, Names(order), node, collected, a);
      PushKeepsFrame(m, m2, RemoveAll(m2, collected, a).0, node);
      if SoundFor(m, node) {
        NowhereReferenced(m, m2, node, order);
      }
    }
  }

  lemma {:induction false} NowhereReferenced(m: Manager, m2: Manager, node: Node, order: seq<Name>)
    requires node in m.watchers && Orders(order, m.watchers[node]) && SoundFor(m, node)
    requires Dropped(m, m2, Names(order), node)
    ensures forall n: Name :: node !in RefsAt(m2, n)
  {
    forall n: Name
      ensures node !in RefsAt(m2, n)
    {
      if node in RefsAt(m, n) {
        assert n in order;
      }
    }
  }

  // ----- Setting a node's resources ----------------------------------------------------------------------------------

  lemma {:induction false} NewNamesContents(names: seq<Name>, watched: set<Name>)
    ensures Names(NewNames(names, watched)) == Names(names) - watched
  {
    if names != [] {
      var init, last := names[..|names| - 1], names[|names| - 1];
      NewNamesContents(init, watched);
      assert Names(names) == Names(init) + {last};
      assert Names(NewNames(names, watched)) ==
             Names(NewNames(init, watched)) + (if last in watched then {} else {last});
    }
  }

  /**
   * On success the node watches exactly the requested names, however often each was requested, and
   * whatever happens no other node's watch set or references change.
   */
  lemma {:induction false} SetResourcesIsExactWithFrame(m: Manager, names: seq<Name>, node: Node, stale: seq<Name>,
                                                        a: Answers)
    requires IsStale(stale, m, names, node)
    ensures var (m', ok) := SetResources(m, names, node, stale, a);
            && Frame(m, m', node)
            && (ok ==> WatchSet(m', node) == Names(names))
  {
    if node !in m.watchers {
      WatchFacts(m, names, node, a);
    } else {
      var unseen := NewNames(names, m.watchers[node]);
      NewNamesContents(names, m.watchers[node]);
      WatchFacts(m, unseen, node, a);
      var (m1, ok) := Watch(m, unseen, node, a);
      if ok {
        UnwatchFacts(m1, stale, node, a);
        FrameTransitive(m, m1, Unwatch(m1, stale, node, a).0, node);
        assert Names(stale) == m.watchers[node] - Names(names);
      }
    }
  }

  lemma {:induction false} SetResourcesKeepsSound(m: Manager, names: seq<Name>, node: Node, stale: seq<Name>,
                                                  a: Answers)
    requires IsStale(stale, m, names, node) && Sound(m)
    ensures Sound(SetResources(m, names, node, stale, a).0)
  {
    SetResourcesIsExactWithFrame(m, names, node, stale, a);
    var m' := SetResources(m, names, node, stale, a).0;
    if node !in m.watchers {
      WatchFacts(m, names, node, a);
    } else {
      var unseen := NewNames(names, m.watchers[node]);
      WatchFacts(m, unseen, node, a);
      UnwatchFacts(Watch(m, unseen, node, a).0, stale, node, a);
    }
    FramedSoundness(m, m', node);
  }

  /** As long as fetching works, watchers and references stay inverse to each other. */
  lemma {:induction false} SetResourcesKeepsComplete(m: Manager, names: seq<Name>, node: Node, stale: seq<Name>,
                                                     a: Answers)
    requires IsStale(stale, m, names, node) && Complete(m) && forall n | n in names :: a.fetch(n).Some?
    ensures Complete(SetResources(m, names, node, stale, a).0)
  {
    SetResourcesIsExactWithFrame(m, names, node, stale, a);
    var m' := SetResources(m, names, node, stale, a).0;
    if node !in m.watchers {
      WatchFacts(m, names, node, a);
    } else {
      var unseen := NewNames(names, m.watchers[node]);
      NewNamesContents(names, m.watchers[node]);
      WatchFacts(m, unseen, node, a);
      var m1 := Watch(m, unseen, node, a).0;
      assert forall n | n in unseen :: n in Names(unseen);
      UnwatchFacts(m1, stale, node, a);
      forall n | n in WatchSet(m', node)
        ensures node in RefsAt(m', n)
      {
        assert n in WatchSet(m, node) + Names(unseen);
        if n in m.watchers[node] {
          assert n in WatchSet(m, node) && node in RefsAt(m, n);
        } else {
          assert n in Names(unseen);
        }
      }
    }
    FramedCompleteness(m, m', node);
  }

  lemma {:induction false} SetResourcesKeepsCache(m: Manager, names: seq<Name>, node: Node, stale: seq<Name>,
                                                  a: Answers)
    requires IsStale(stale, m, names, node) && forall n: Name :: a.remove(n)
    ensures var (m', ok) := SetResources(m, names, node, stale, a);
            && (CacheWithin(m, {}) ==> CacheWithin(m', {}))
            && (ok && CacheCovers(m, {}) ==> CacheCovers(m', {}))
  {
    if node !in m.watchers {
      WatchFacts(m, names, node, a);
    } else {
      var unseen := NewNames(names, m.watchers[node]);
      WatchFacts(m, unseen, node, a);
      UnwatchFacts(Watch(m, unseen, node, a).0, stale, node, a);
    }
  }

  /**
   * A successful call leaves the node referring to every name it requested if and only if, before it,
   * no requested name was already watched by the node without being referred to.
   */
  lemma {:induction false} SuccessRegistersIff(m: Manager, names: seq<Name>, node: Node, stale: seq<Name>, a: Answers)
    requires IsStale(stale, m, names, node) && SetResources(m, names, node, stale, a).1
    ensures (forall n | n in names :: node in RefsAt(SetResources(m, names, node, stale, a).0, n)) <==>
            (forall n | n in names && n in WatchSet(m, node) :: node in RefsAt(m, n))
  {
    if node !in m.watchers {
      WatchFacts(m, names, node, a);
    } else {
      var unseen := NewNames(names, m.watchers[node]);
      NewNamesContents(names, m.watchers[node]);
      WatchFacts(m, unseen, node, a);
      var m1 := Watch(m, unseen, node, a).0;
      UnwatchFacts(m1, stale, node, a);
      var m' := SetResources(m, names, node, stale, a).0;
      forall n | n in names
        ensures node in RefsAt(m', n) <==> (n in WatchSet(m, node) ==> node in RefsAt(m, n))
      {
        assert n in Names(names) && n !in m.watchers[node] - Names(names);
        assert n !in stale;
        if n in m.watchers[node] {
          assert n !in Names(unseen);
          assert n !in unseen;
        } else {
          assert n in Names(unseen);
        }
      }
    }
  }

  /** A name whose fetch failed stays watched; asking for it again succeeds without fetching it. */
  lemma {:induction false} FailedFetchIsNotRetried(n: Name, node: Node, failing: Answers, later: Answers)
    requires failing.fetch(n).None?
    ensures var first := SetResources(EMPTY, [n], node, [], failing);
            var second := SetResources(first.0, [n], node, [], later);
            !first.1 && second.1 && WatchSet(second.0, node) == {n} && n !in second.0.registry
  {
    var m := NoteWatch(NoteWatch(EMPTY, node, {}), node, {n});
    assert WatchNames(NoteWatch(EMPTY, node, {}), [n], node, failing) == WatchResult(m, [], false);
    assert m.watchers[node] == {n};
    assert [n][..0] == [];
    assert NewNames([n], {n}) == [];
  }

  // ----- Refreshing --------------------------------------------------------------------------------------------------

  lemma {:induction false} RefreshKeeps(m: Manager, force: bool, now: int, a: Answers)
    ensures var m' := Refresh(m, force, now, a);
            && m'.watchers == m.watchers && (forall n: Name :: RefsAt(m', n) == RefsAt(m, n))
            && m'.registry.Keys == m.registry.Keys
            && (CacheWithin(m, {}) ==> CacheWithin(m', {})) && (CacheCovers(m, {}) ==> CacheCovers(m', {}))
  {}

  lemma {:induction false} SameReferences(m: Manager, m': Manager)
    requires m'.watchers == m.watchers && m'.registry.Keys == m.registry.Keys
    requires forall n: Name :: RefsAt(m', n) == RefsAt(m, n)
    ensures Sound(m) ==> Sound(m')
    ensures Complete(m) ==> Complete(m')
  {
    forall n | n in m'.registry
      ensures m'.registry[n].refs == m.registry[n].refs
    {
      assert RefsAt(m', n) == RefsAt(m, n);
    }
    assert forall x: Node :: WatchSet(m', x) == WatchSet(m, x);
  }

  /** A forced pass in which everything succeeds repairs the cache: it equals the registry again. */
  lemma {:induction false} ForcedRefreshRepairs(m: Manager, now: int, a: Answers)
    requires CacheWithin(m, {}) && forall n | n in m.registry :: a.fetch(n).Some? && a.update(n)
    ensures var m' := Refresh(m, true, now, a);
            m'.cache == map n | n in m'.registry :: m'.registry[n].secret
  {
    var m' := Refresh(m, true, now, a);
    forall n | n in m.registry
      ensures Refreshed(m, n, true, now, a)
    {}
  }

  // ----- Refreshing, by the clock ------------------------------------------------------------------------------

  /** The entry of n was replaced by what was fetched, in the registry and in the cache. */
  ghost predicate Replaced(m: Manager, m': Manager, n: Name, a: Answers)
    requires n in m.registry
  {
    && a.fetch(n).Some? && n in m'.registry && n in m'.cache && m'.cache[n] == a.fetch(n).value.0
    && m'.registry[n] == Certificate(a.fetch(n).value.0, a.fetch(n).value.1, m.registry[n].refs)
  }

  /** Neither the registry nor the cache has changed at n. */
  ghost predicate Untouched(m: Manager, m': Manager, n: Name) {
    && (n in m'.registry <==> n in m.registry) && (n in m.registry ==> m'.registry[n] == m.registry[n])
    && (n in m'.cache <==> n in m.cache) && (n in m.cache ==> m'.cache[n] == m.cache[n])
  }

  /**
   * A pass at the time now, in seconds: a certificate that can be fetched and pushed is replaced if the pass
   * is forced or less than ten minutes are left of it, and nothing else changes.
   */
  ghost predicate RefreshedByClock(m: Manager, m': Manager, force: bool, now: int, a: Answers) {
    && m'.watchers == m.watchers
    && forall n: Name ::
         if n in m.registry && a.fetch(n).Some? && a.update(n) && (force || m.registry[n].expires - now < 600)
         then Replaced(m, m', n, a) else Untouched(m, m', n)
  }

  lemma {:induction false} RefreshByClock(m: Manager, force: bool, now: int, a: Answers)
    ensures RefreshedByClock(m, Refresh(m, force, now, a), force, now, a)
  {}

  /** If all can be fetched, pushed, and lives for ten minutes more, another pass at that time has nothing to do. */
  lemma {:induction false} NothingDueAfterwards(m: Manager, force: bool, now: int, a: Answers, again: Answers)
    requires forall n | n in m.registry :: a.fetch(n).Some? && a.update(n) && a.fetch(n).value.1 - now >= 600
    ensures var m' := Refresh(m, force, now, a);
            (forall n | n in m'.registry :: m'.registry[n].expires - now >= 600) && Refresh(m', false, now, again) == m'
  {
    var m' := Refresh(m, force, now, a);
    RefreshByClock(m, force, now, a);
    forall n | n in m'.registry
      ensures m'.registry[n].expires - now >= 600
    {
      assert n in m.registry;
    }
    NoneDue(m', now, again);
  }

  lemma {:induction false} NoneDue(m: Manager, now: int, a: Answers)
    requires forall n | n in m.registry :: m.registry[n].expires - now >= 600
    ensures Refresh(m, false, now, a) == m
  {
    var m' := Refresh(m, false, now, a);
    RefreshByClock(m, false, now, a);
    assert forall n: Name :: Untouched(m, m', n);
    UntouchedAll(m, m');
  }

  lemma {:induction false} UntouchedAll(m: Manager, m': Manager)
    requires m'.watchers == m.watchers && forall n: Name :: Untouched(m, m', n)
    ensures m' == m
  {
    forall n: Name
      ensures (n in m'.registry <==> n in m.registry) && (n in m.registry ==> m'.registry[n] == m.registry[n])
      ensures (n in m'.cache <==> n in m.cache) && (n in m.cache ==> m'.cache[n] == m.cache[n])
    {
      assert Untouched(m, m', n);
    }
    assert m'.registry == m.registry;
    assert m'.cache == m.cache;
  }

  // ----- What is registered is what was fetched ------------------------------------------------------------------

  /** Newly fetched certificates are registered as fetched; those known before keep contents and expiration. */
  lemma {:induction false} WatchRegistersAnswers(m: Manager, names: seq<Name>, node: Node, a: Answers)
    ensures var r := WatchNames(m, names, node, a);
            && (forall n | n in m.registry :: n in r.m.registry && r.m.registry[n].secret == m.registry[n].secret &&
                                              r.m.registry[n].expires == m.registry[n].expires)
            && (forall n | n in r.m.registry && n !in m.registry ::
                  n in names && a.fetch(n) == Some((r.m.registry[n].secret, r.m.registry[n].expires)))
    decreases |names|
  {
    if names != [] {
      var n, noted := names[0], NoteWatch(m, node, {names[0]});
      if n in m.registry {
        WatchRegistersAnswers(AddRef(noted, n, node), names[1..], node, a);
      } else if a.fetch(n).Some? {
        WatchRegistersAnswers(Register(noted, n, a.fetch(n).value, node), names[1..], node, a);
      }
    }
  }
}
