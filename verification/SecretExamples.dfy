// Runs of the SDS server, from its start, in which a stream's certificate is let go or kept for ever.

module SecretExamples {
  import opened Wrappers
  import opened SecretSpec
  import opened SecretProps
  import opened SecretRuns

  /** Node x, alone, watches n. */
  function Alone(x: Node, n: Name, answer: (Secret, int)): Manager {
    Manager(map[x := {n}], map[n := Certificate(answer.0, answer.1, {x})], map[n := answer.0])
  }

  lemma {:induction false} FirstRequest(x: Node, n: Name, a: Answers)
    requires a.fetch(n).Some? && a.update(n)
    ensures SetResources(EMPTY, [n], x, [], a) == (Alone(x, n, a.fetch(n).value), true)
  {
    var noted := NoteWatch(EMPTY, x, {});
    var m := Register(NoteWatch(noted, x, {n}), n, a.fetch(n).value, x);
    assert [n][1..] == [];
    assert WatchNames(m, [], x, a) == WatchResult(m, [], true);
    assert WatchNames(noted, [n], x, a) == WatchResult(m, [n], true);
    var pushed := m.(cache := m.cache[n := m.registry[n].secret]);
    assert PushAll(pushed, [], a) == (pushed, true);
    assert PushAll(m, [n], a) == (pushed, true);
    var none: set<Name> := {};
    assert none + none == none && none + {n} == {n};
    assert pushed == Alone(x, n, a.fetch(n).value);
  }

  lemma {:induction false} SameRequest(x: Node, n: Name, answer: (Secret, int), a: Answers)
    ensures SetResources(Alone(x, n, answer), [n], x, [], a) == (Alone(x, n, answer), true)
  {
    var m := Alone(x, n, answer);
    assert [n][..0] == [];
    assert NewNames([n], {n}) == [];
    assert {n} + {} == {n};
    assert NoteWatch(m, x, {}) == m;
    assert Watch(m, [], x, a) == (m, true);
  }

  /** Node y joins x at the certificate. */
  lemma {:induction false} SecondNode(x: Node, y: Node, n: Name, answer: (Secret, int), a: Answers)
    requires x != y
    ensures var (m, ok) := SetResources(Alone(x, n, answer), [n], y, [], a);
            && ok && m.watchers == map[x := {n}, y := {n}]
            && m.registry == map[n := Certificate(answer.0, answer.1, {x, y})]
  {
    var m := Alone(x, n, answer);
    var noted := NoteWatch(m, y, {});
    var joined := AddRef(NoteWatch(noted, y, {n}), n, y);
    assert [n][1..] == [];
    assert WatchNames(joined, [], y, a) == WatchResult(joined, [], true);
    assert WatchNames(noted, [n], y, a) == WatchResult(joined, [], true);
    var none: set<Name> := {};
    assert none + none == none && none + {n} == {n} && {x} + {y} == {x, y};
    assert joined.watchers == map[x := {n}, y := {n}];
  }

  /** Letting go of the one node there is lets go of everything. */
  lemma {:induction false} LastNodeGoes(x: Node, n: Name, answer: (Secret, int), a: Answers)
    ensures var m := UnwatchAll(Alone(x, n, answer), x, [n], a).0; m.watchers == map[] && m.registry == map[]
  {
    var m := Alone(x, n, answer);
    assert {x} - {x} == {} && [n][1..] == [];
    assert DropNames(DropRef(m, n, x), [], x, false) == (DropRef(m, n, x), []);
    var (m', collected) := DropNames(m, [n], x, false);
    assert m' == DropRef(m, n, x) && m'.registry == map[];
    RemoveFacts(m'.(watchers := m'.watchers - {x}), collected, a);
  }

  /** Everything succeeds. */
  ghost predicate Obliging(a: Answers) {
    forall n: Name :: a.fetch(n).Some? && a.update(n) && a.remove(n)
  }

  ghost predicate ServedRun(s: Server, actions: seq<Action>, t: Server) {
    Run(s, actions, t) && AllServed(s, actions)
  }

  lemma {:induction false} RunMore(s: Server, actions: seq<Action>, t: Server, a: Action)
    requires ServedRun(s, actions, t) && Enabled(t, a) && Served(t, a)
    ensures ServedRun(s, actions + [a], Next(t, a))
    decreases |actions|
  {
    if actions == [] {
      assert actions + [a] == [a] && [a][1..] == [];
    } else {
      assert (actions + [a])[1..] == actions[1..] + [a];
      RunMore(Next(s, actions[0]), actions[1..], t, a);
    }
  }

  /** Stream 1 opens and asks for n as node x. */
  function Begun(x: Node, n: Name, a: Answers): seq<Action> {
    [Open(1), Request(1, x, [n], true, [], a)]
  }

  lemma {:induction false} BegunReaches(x: Node, n: Name, a: Answers)
    requires Obliging(a)
    ensures ServedRun(START, Begun(x, n, a), Server(Alone(x, n, a.fetch(n).value), {1}, map[1 := x], 1))
  {
    var waiting := Server(EMPTY, {1}, map[], 1);
    assert Next(START, Open(1)) == waiting && [] + [Open(1)] == [Open(1)];
    RunMore(START, [], START, Open(1));
    FirstRequest(x, n, a);
    RunMore(START, [Open(1)], waiting, Request(1, x, [n], true, [], a));
    assert [Open(1)] + [Request(1, x, [n], true, [], a)] == Begun(x, n, a);
  }

  lemma {:induction false} SecondStreamReaches(x: Node, n: Name, a: Answers)
    requires Obliging(a)
    ensures ServedRun(START, Begun(x, n, a) + [Open(2)] + [Request(2, x, [n], true, [], a)],
                      Server(Alone(x, n, a.fetch(n).value), {1, 2}, map[1 := x, 2 := x], 2))
  {
    var m, again := Alone(x, n, a.fetch(n).value), Request(2, x, [n], true, [], a);
    var one, two := Server(m, {1}, map[1 := x], 1), Server(m, {1, 2}, map[1 := x], 2);
    BegunReaches(x, n, a);
    assert {1} + {2} == {1, 2};
    assert Next(one, Open(2)) == two;
    RunMore(START, Begun(x, n, a), one, Open(2));
    SameRequest(x, n, a.fetch(n).value, a);
    assert Next(two, again) == Server(m, {1, 2}, map[1 := x, 2 := x], 2);
    RunMore(START, Begun(x, n, a) + [Open(2)], two, again);
  }

  /**
   * Two streams name one node, both ask for n, and nothing fails. The first one's closing takes the
   * watch and the certificate from the second, which is still open.
   */
  lemma {:induction false} SharedNodeLosesItsWatch(x: Node, n: Name, a: Answers) returns (s: Server)
    requires Obliging(a)
    ensures ServedRun(START, Begun(x, n, a) + [Open(2)] + [Request(2, x, [n], true, [], a)] + [Close(1, [n], a)], s)
    ensures s.open == {2} && s.nodes == map[2 := x] && s.m.watchers == map[] && s.m.registry == map[]
  {
    var m, close := Alone(x, n, a.fetch(n).value), Close(1, [n], a);
    var before := Server(m, {1, 2}, map[1 := x, 2 := x], 2);
    SecondStreamReaches(x, n, a);
    RunMore(START, Begun(x, n, a) + [Open(2)] + [Request(2, x, [n], true, [], a)], before, close);
    s := Next(before, close);
    LastNodeGoes(x, n, a.fetch(n).value, a);
    assert s.open == {2} && s.nodes == map[2 := x];
  }

  /**
   * A stream asks for n as node x, then as node y, and closes, and nothing fails. No stream is open,
   * and x is watched, the certificate registered and cached.
   */
  lemma {:induction false} RenamedStreamLeaks(x: Node, y: Node, n: Name, a: Answers) returns (s: Server)
    requires x != y && Obliging(a)
    ensures ServedRun(START, Begun(x, n, a) + [Request(1, y, [n], true, [], a)] + [Close(1, [n], a)], s)
    ensures s.open == {} && n in WatchSet(s.m, x) && n in s.m.registry && n in s.m.cache
  {
    var m := Alone(x, n, a.fetch(n).value);
    var begun, renamed, close := Begun(x, n, a), Request(1, y, [n], true, [], a), Close(1, [n], a);
    var one := Server(m, {1}, map[1 := x], 1);
    BegunReaches(x, n, a);
    SecondNode(x, y, n, a.fetch(n).value, a);
    RunMore(START, begun, one, renamed);
    var before := Next(one, renamed);
    RunMore(START, begun + [renamed], before, close);
    s := Next(before, close);
    UnwatchAllFacts(before.m, y, [n], a);
    assert x in RefsAt(before.m, n) - {y};
    assert x in RefsAt(s.m, n);
    CacheEqualsRegistryWhenServed(begun + [renamed] + [close], s);
  }
}
