// What the SDS secret manager does to its watchers, its registry and the cache behind it
// (internal/envoy/secrets.go), as functions of the state and of what the outside world answers.

module SecretSpec {
  import opened Wrappers

  type Node = string
  type Name = string
  type Secret = string

  /** A tracked certificate: its contents, its expiration and the nodes referring to it. */
  datatype Certificate = Certificate(secret: Secret, expires: int, refs: set<Node>)

  datatype Manager = Manager(watchers: map<Node, set<Name>>, registry: map<Name, Certificate>, cache: map<Name, Secret>)

  const EMPTY := Manager(map[], map[], map[])

  /** The answers during one call: what fetching a name gives, and which cache writes succeed. */
  datatype Answers = Answers(fetch: Name -> Option<(Secret, int)>, update: Name -> bool, remove: Name -> bool)

  // ----- The elementary steps ------------------------------------------------------------------------------

  function WatchSet(m: Manager, node: Node): set<Name> {
    if node in m.watchers then m.watchers[node] else {}
  }

  function NoteWatch(m: Manager, node: Node, names: set<Name>): Manager {
    m.(watchers := m.watchers[node := WatchSet(m, node) + names])
  }

  function AddRef(m: Manager, n: Name, node: Node): Manager
    requires n in m.registry
  {
    m.(registry := m.registry[n := m.registry[n].(refs := m.registry[n].refs + {node})])
  }

  function Register(m: Manager, n: Name, answer: (Secret, int), node: Node): Manager {
    m.(registry := m.registry[n := Certificate(answer.0, answer.1, {node})])
  }

  /** Takes the node's reference away and drops a certificate without references. */
  function DropRef(m: Manager, n: Name, node: Node): Manager {
    if n !in m.registry then m
    else
      var refs := m.registry[n].refs - {node};
      m.(registry := if refs == {} then m.registry - {n} else m.registry[n := m.registry[n].(refs := refs)])
  }

  predicate Collects(m: Manager, n: Name, node: Node) {
    n in m.registry && m.registry[n].refs - {node} == {}
  }

  function Forget(m: Manager, n: Name, node: Node): Manager {
    if node in m.watchers then m.(watchers := m.watchers[node := m.watchers[node] - {n}]) else m
  }

  // ----- Watching ---------------------------------------------------------------------------------------------

  datatype WatchResult = WatchResult(m: Manager, fetched: seq<Name>, ok: bool)

  /** Names are taken in order; the first fetch that fails ends the loop. */
  function WatchNames(m: Manager, names: seq<Name>, node: Node, a: Answers): WatchResult
    decreases |names|
  {
    if names == [] then WatchResult(m, [], true)
    else
      var n, noted := names[0], NoteWatch(m, node, {names[0]});
      if n in m.registry then WatchNames(AddRef(noted, n, node), names[1..], node, a)
      else
        match a.fetch(n)
        case None => WatchResult(noted, [], false)
        case Some(answer) =>
          var r := WatchNames(Register(noted, n, answer, node), names[1..], node, a);
          r.(fetched := [n] + r.fetched)
  }

  /** Pushes fetched certificates into the cache, up to the first failure. */
  function PushAll(m: Manager, names: seq<Name>, a: Answers): (Manager, bool)
    requires forall i | 0 <= i < |names| :: names[i] in m.registry
    decreases |names|
  {
    if names == [] then (m, true)
    else if !a.update(names[0]) then (m, false)
    else PushAll(m.(cache := m.cache[names[0] := m.registry[names[0]].secret]), names[1..], a)
  }

  lemma {:induction false} FetchedAreRegistered(m: Manager, names: seq<Name>, node: Node, a: Answers)
    ensures var r := WatchNames(m, names, node, a);
            (forall i | 0 <= i < |r.fetched| :: r.fetched[i] in r.m.registry) && m.registry.Keys <= r.m.registry.Keys
    decreases |names|
  {
    if names != [] {
      var n, noted := names[0], NoteWatch(m, node, {names[0]});
      if n in m.registry {
        FetchedAreRegistered(AddRef(noted, n, node), names[1..], node, a);
      } else if a.fetch(n).Some? {
        FetchedAreRegistered(Register(noted, n, a.fetch(n).value, node), names[1..], node, a);
      }
    }
  }

  /** Certificates fetched before a fetch that fails stay registered but are not pushed. */
  function Watch(m: Manager, names: seq<Name>, node: Node, a: Answers): (Manager, bool) {
    FetchedAreRegistered(NoteWatch(m, node, {}), names, node, a);
    var r := WatchNames(NoteWatch(m, node, {}), names, node, a);
    if r.ok then PushAll(r.m, r.fetched, a) else (r.m, false)
  }

  // ----- Unwatching ---------------------------------------------------------------------------------------------

  /** forget says whether the names are also struck off the node's watch set. */
  function DropNames(m: Manager, names: seq<Name>, node: Node, forget: bool): (Manager, seq<Name>)
    decreases |names|
  {
    if names == [] then (m, [])
    else
      var n := names[0];
      var m' := DropRef(if forget then Forget(m, n, node) else m, n, node);
      var rest := DropNames(m', names[1..], node, forget);
      (rest.0, (if Collects(m, n, node) then [n] else []) + rest.1)
  }

  /** Deletes from the cache, up to the first failure. */
  function RemoveAll(m: Manager, names: seq<Name>, a: Answers): (Manager, bool)
    decreases |names|
  {
    if names == [] then (m, true)
    else if !a.remove(names[0]) then (m, false)
    else RemoveAll(m.(cache := m.cache - {names[0]}), names[1..], a)
  }

  function DropIfIdle(m: Manager, node: Node): Manager {
    if node in m.watchers && m.watchers[node] == {} then m.(watchers := m.watchers - {node}) else m
  }

  function Unwatch(m: Manager, names: seq<Name>, node: Node, a: Answers): (Manager, bool) {
    if node !in m.watchers then (m, true)
    else
      var (m', collected) := DropNames(m, names, node, true);
      RemoveAll(DropIfIdle(m', node), collected, a)
  }

  /** order is the order in which the node's watch set happens to be visited. */
  function UnwatchAll(m: Manager, node: Node, order: seq<Name>, a: Answers): (Manager, bool) {
    if node !in m.watchers then (m, true)
    else
      var (m', collected) := DropNames(m, order, node, false);
      RemoveAll(m'.(watchers := m'.watchers - {node}), collected, a)
  }

  ghost predicate Orders(order: seq<Name>, s: set<Name>) {
    (forall i | 0 <= i < |order| :: order[i] in s) && (forall n | n in s :: n in order)
  }

  // ----- Setting the resources of a node -----------------------------------------------------------------------------

  function NewNames(names: seq<Name>, watched: set<Name>): seq<Name> {
    if names == [] then []
    else NewNames(names[..|names| - 1], watched) + (if names[|names| - 1] in watched then [] else [names[|names| - 1]])
  }

  /** stale lists, in some order, the watched names that are no longer requested. */
  function SetResources(m: Manager, names: seq<Name>, node: Node, stale: seq<Name>, a: Answers): (Manager, bool) {
    if node !in m.watchers then Watch(m, names, node, a)
    else
      var (m', ok) := Watch(m, NewNames(names, m.watchers[node]), node, a);
      if !ok then (m', false) else Unwatch(m', stale, node, a)
  }

  ghost predicate IsStale(stale: seq<Name>, m: Manager, names: seq<Name>, node: Node) {
    node in m.watchers ==> Orders(stale, m.watchers[node] - set n | n in names)
  }

  // ----- Refreshing --------------------------------------------------------------------------------------------------

  const EXPIRATION_DELTA := 600

  predicate Due(c: Certificate, force: bool, now: int) {
    force || now > c.expires - EXPIRATION_DELTA
  }

  predicate Refreshed(m: Manager, n: Name, force: bool, now: int, a: Answers) {
    n in m.registry && Due(m.registry[n], force, now) && a.fetch(n).Some? && a.update(n)
  }

  /** Every due certificate that can be fetched and pushed is replaced, keeping its references. */
  function Refresh(m: Manager, force: bool, now: int, a: Answers): Manager {
    m.(registry := map n | n in m.registry ::
         if Refreshed(m, n, force, now, a)
         then m.registry[n].(secret := a.fetch(n).value.0, expires := a.fetch(n).value.1)
         else m.registry[n],
       cache := m.cache + map n | n in m.registry && Refreshed(m, n, force, now, a) :: a.fetch(n).value.0)
  }
}
