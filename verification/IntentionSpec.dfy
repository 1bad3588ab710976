// Intentions in Consul and what the reconciler may do to them (internal/consul/intentions.go): how
// sources are added and removed, what compare-and-set protects, and what holds over whole runs.

module IntentionSpec {
  import opened Wrappers
  import opened ServiceNames

  // ----- Sources -------------------------------------------------------------------------------------------

  /** rest stands for action and description, which matching ignores. */
  datatype Source = Source(name: string, namespace: string, rest: string)

  function CanonicalNamespace(ns: string): string { if ns == "" then "default" else ns }

  predicate SourceMatches(a: Source, b: Source) {
    a.name == b.name && CanonicalNamespace(a.namespace) == CanonicalNamespace(b.namespace)
  }

  /** The sources of the gateway itself among ss, and all others, in order. */
  function Own(ss: seq<Source>, gw: Source): seq<Source> {
    if ss == [] then []
    else Own(ss[..|ss| - 1], gw) + (if SourceMatches(ss[|ss| - 1], gw) then [ss[|ss| - 1]] else [])
  }

  function Others(ss: seq<Source>, gw: Source): seq<Source> {
    if ss == [] then []
    else Others(ss[..|ss| - 1], gw) + (if SourceMatches(ss[|ss| - 1], gw) then [] else [ss[|ss| - 1]])
  }

  /** The first source of the gateway, or the length of ss if there is none. */
  function FirstOwn(ss: seq<Source>, gw: Source): (i: nat)
    ensures i <= |ss|
    ensures forall j | 0 <= j < i :: !SourceMatches(ss[j], gw)
    ensures i < |ss| ==> SourceMatches(ss[i], gw)
  {
    if ss == [] then 0 else if SourceMatches(ss[0], gw) then 0
    else
      var i := FirstOwn(ss[1..], gw);
      assert forall j | 1 <= j < i + 1 :: ss[j] == ss[1..][j - 1];
      i + 1
  }

  /** What the two callbacks leave: the source added if absent, or its first occurrence removed. */
  function Updated(ss: seq<Source>, gw: Source, add: bool): seq<Source> {
    var i := FirstOwn(ss, gw);
    if add then (if i < |ss| then ss else ss + [gw])
    else (if i < |ss| then ss[..i] + ss[i + 1..] else ss)
  }

  /** Whether the callback reports a modification. */
  predicate Modifies(ss: seq<Source>, gw: Source, add: bool) {
    (FirstOwn(ss, gw) == |ss|) == add
  }

  lemma {:induction false} OwnConcat(a: seq<Source>, b: seq<Source>, gw: Source)
    ensures Own(a + b, gw) == Own(a, gw) + Own(b, gw)
    ensures Others(a + b, gw) == Others(a, gw) + Others(b, gw)
    decreases |b|
  {
    if b == [] {
      assert a + b == a;
    } else {
      var init, last := b[..|b| - 1], b[|b| - 1];
      assert (a + b)[..|a + b| - 1] == a + init;
      OwnConcat(a, init, gw);
    }
  }

  lemma {:induction false} NoOwn(ss: seq<Source>, gw: Source)
    requires forall j | 0 <= j < |ss| :: !SourceMatches(ss[j], gw)
    ensures Own(ss, gw) == [] && Others(ss, gw) == ss
  {
    if ss != [] {
      NoOwn(ss[..|ss| - 1], gw);
    }
  }

  lemma {:induction false} OwnOfOne(s: Source, gw: Source)
    ensures Own([s], gw) == (if SourceMatches(s, gw) then [s] else [])
    ensures Others([s], gw) == (if SourceMatches(s, gw) then [] else [s])
  {
    assert [s][..0] == [];
  }

  lemma {:induction false} OwnWhenFound(ss: seq<Source>, gw: Source, i: nat)
    requires i < |ss| && SourceMatches(ss[i], gw) && forall j | 0 <= j < i :: !SourceMatches(ss[j], gw)
    ensures Own(ss, gw) == [ss[i]] + Own(ss[i + 1..], gw)
    ensures Others(ss, gw) == Others(ss[..i] + ss[i + 1..], gw)
    ensures Own(ss[..i] + ss[i + 1..], gw) == Own(ss[i + 1..], gw)
  {
    var a, c := ss[..i], ss[i + 1..];
    NoOwn(a, gw);
    assert ss == a + ([ss[i]] + c);
    OwnInside(a, ss[i], c, gw);
  }

  lemma {:induction false} OwnInside(a: seq<Source>, x: Source, c: seq<Source>, gw: Source)
    requires Own(a, gw) == [] && SourceMatches(x, gw)
    ensures Own(a + ([x] + c), gw) == [x] + Own(c, gw)
    ensures Own(a + c, gw) == Own(c, gw)
    ensures Others(a + ([x] + c), gw) == Others(a + c, gw)
  {
    OwnOfOne(x, gw);
    OwnConcat([x], c, gw);
    OwnConcat(a, [x] + c, gw);
    OwnConcat(a, c, gw);
    assert [] + Others(c, gw) == Others(c, gw);
  }

  lemma {:induction false} OwnAtFirst(ss: seq<Source>, gw: Source)
    ensures Own(ss, gw) == [] <==> FirstOwn(ss, gw) == |ss|
  {
    if FirstOwn(ss, gw) == |ss| {
      NoOwn(ss, gw);
    } else {
      OwnWhenFound(ss, gw, FirstOwn(ss, gw));
    }
  }

  /** Updating keeps every other source, in order, and changes only the gateway's own. */
  lemma {:induction false} UpdateKeepsOthers(ss: seq<Source>, gw: Source, add: bool)
    ensures Others(Updated(ss, gw, add), gw) == Others(ss, gw)
    ensures add ==> Own(Updated(ss, gw, add), gw) == if Own(ss, gw) == [] then [gw] else Own(ss, gw)
    ensures !add ==> Own(Updated(ss, gw, add), gw) == if Own(ss, gw) == [] then [] else Own(ss, gw)[1..]
    ensures Modifies(ss, gw, add) <==> Updated(ss, gw, add) != ss
  {
    OwnAtFirst(ss, gw);
    var i := FirstOwn(ss, gw);
    if i < |ss| {
      OwnWhenFound(ss, gw, i);
      assert |ss[..i] + ss[i + 1..]| == |ss| - 1;
    } else {
      OwnConcat(ss, [gw], gw);
      OwnOfOne(gw, gw);
      assert |ss + [gw]| == |ss| + 1;
    }
  }

  /** The two sources are of one service: the same name, in the same namespace, "default" being the empty one. */
  predicate SameParty(a: Source, b: Source) {
    && a.name == b.name
    && (a.namespace == b.namespace || (a.namespace in {"", "default"} && b.namespace in {"", "default"}))
  }

  ghost predicate FirstParty(ss: seq<Source>, gw: Source, i: nat) {
    i < |ss| && SameParty(ss[i], gw) && forall j | 0 <= j < i :: !SameParty(ss[j], gw)
  }

  /**
   * Field by field: a source is appended if none of the list is the gateway's, or the first that is goes;
   * a modification is reported exactly then.
   */
  lemma {:induction false} UpdatedByFields(ss: seq<Source>, gw: Source)
    ensures var listed := exists i | 0 <= i < |ss| :: SameParty(ss[i], gw);
            && Updated(ss, gw, true) == (if listed then ss else ss + [gw]) && (Modifies(ss, gw, true) <==> !listed)
            && (Modifies(ss, gw, false) <==> listed) && (!listed ==> Updated(ss, gw, false) == ss)
    ensures forall i: nat | FirstParty(ss, gw, i) :: Updated(ss, gw, false) == ss[..i] + ss[i + 1..]
    ensures Own(ss, gw) != [] <==> exists i | 0 <= i < |ss| :: SameParty(ss[i], gw)
  {
    assert forall s: Source :: SourceMatches(s, gw) <==> SameParty(s, gw);
    OwnAtFirst(ss, gw);
    var first := FirstOwn(ss, gw);
    forall i: nat | FirstParty(ss, gw, i)
      ensures first == i
    {
      assert SourceMatches(ss[i], gw);
    }
  }

  // ----- Consul -----------------------------------------------------------------------------------------------

  /** A stored intention with the index of its last modification. */
  datatype Intention = Intention(sources: seq<Source>, index: nat)

  datatype World = World(entries: map<ServiceName, Intention>, clock: nat)

  /** The key under which a target's intention is stored: "default" is written "". */
  function Fold(t: ServiceName): ServiceName {
    if t.namespace == "default" then t.(namespace := "") else t
  }

  function SourcesAt(w: World, k: ServiceName): seq<Source> {
    if k in w.entries then w.entries[k].sources else []
  }

  function IndexAt(w: World, k: ServiceName): nat {
    if k in w.entries then w.entries[k].index else 0
  }

  ghost function OwnAt(w: World, gw: Source, k: ServiceName): seq<Source> { Own(SourcesAt(w, k), gw) }

  ghost predicate Granted(w: World, gw: Source, k: ServiceName) { OwnAt(w, gw, k) != [] }

  /** Indexes are positive and not ahead of the clock; the gateway occurs at most once per intention. */
  ghost predicate WorldOk(w: World, gw: Source) {
    && (forall k | k in w.entries :: 0 < w.entries[k].index <= w.clock)
    && (forall k | k in w.entries :: |OwnAt(w, gw, k)| <= 1)
  }

  /**
   * What others may do meanwhile: rewrite, create or delete any intention, each write getting a new
   * index, but never touching the gateway's own source.
   */
  predicate Foreign(w: World, w': World, gw: Source) {
    && w.clock <= w'.clock
    && (forall k | k in w'.entries :: (k in w.entries && w'.entries[k] == w.entries[k]) ||
                                      w.clock < w'.entries[k].index <= w'.clock)
    && (forall k | k in w.entries.Keys + w'.entries.Keys :: Own(SourcesAt(w', k), gw) == Own(SourcesAt(w, k), gw))
  }

  lemma {:induction false} ForeignKeeps(w: World, w': World, gw: Source)
    requires WorldOk(w, gw) && Foreign(w, w', gw)
    ensures WorldOk(w', gw)
    ensures forall k :: OwnAt(w', gw, k) == OwnAt(w, gw, k)
  {
    forall k: ServiceName
      ensures OwnAt(w', gw, k) == OwnAt(w, gw, k)
    {
      if k !in w.entries.Keys + w'.entries.Keys {
        assert SourcesAt(w', k) == SourcesAt(w, k);
      }
    }
  }

  lemma {:induction false} ForeignToItself(w: World, gw: Source)
    requires WorldOk(w, gw)
    ensures Foreign(w, w, gw)
  {}

  /** Compare-and-set goes through when the intention still has the given index; 0 stands for absence. */
  predicate Accepts(w: World, k: ServiceName, idx: nat) {
    IndexAt(w, k) == idx
  }

  function Stored(w: World, k: ServiceName, ss: seq<Source>): World {
    World(w.entries[k := Intention(ss, w.clock + 1)], w.clock + 1)
  }

  function Deleted(w: World, k: ServiceName): World {
    World(w.entries - {k}, w.clock)
  }

  /** The only difference, at key k, is in the gateway's own sources. */
  ghost predicate OnlyOwnChanged(w: World, w': World, gw: Source, k: ServiceName) {
    && Others(SourcesAt(w', k), gw) == Others(SourcesAt(w, k), gw)
    && forall j: ServiceName | j != k :: SourcesAt(w', j) == SourcesAt(w, j) && IndexAt(w', j) == IndexAt(w, j)
  }

  /** An index not seen to change means sources not changed: every write gets a new index. */
  lemma {:induction false} SameIndexSameSources(read: World, now: World, gw: Source, k: ServiceName)
    requires WorldOk(read, gw) && WorldOk(now, gw) && Foreign(read, now, gw) && Accepts(now, k, IndexAt(read, k))
    ensures SourcesAt(now, k) == SourcesAt(read, k)
  {}

  /**
   * An intention is read, others write whatever they like, and compare-and-set is accepted: then what
   * is stored is the update of what is stored at that moment, and no foreign write is lost.
   */
  lemma {:induction false} AcceptedCasUpdatesCurrent(read: World, now: World, gw: Source, k: ServiceName, add: bool)
    requires WorldOk(read, gw) && Foreign(read, now, gw) && Accepts(now, k, IndexAt(read, k))
    ensures SourcesAt(now, k) == SourcesAt(read, k)
    ensures OnlyOwnChanged(now, Stored(now, k, Updated(SourcesAt(read, k), gw, add)), gw, k)
  {
    ForeignKeeps(read, now, gw);
    SameIndexSameSources(read, now, gw, k);
    UpdateKeepsOthers(SourcesAt(read, k), gw, add);
  }

  // ----- Granting and revoking ------------------------------------------------------------------------------------

  /**
   * What granting (or revoking) at k may do to the gateway's sources: nothing, or what was asked;
   * without an error it is what was asked. All other keys keep theirs.
   */
  ghost predicate Effect(w: World, w': World, gw: Source, k: ServiceName, add: bool, err: bool) {
    && (forall j: ServiceName | j != k :: Granted(w', gw, j) == Granted(w, gw, j))
    && (Granted(w', gw, k) == Granted(w, gw, k) || Granted(w', gw, k) == add)
    && (!err ==> Granted(w', gw, k) == add)
  }

  lemma {:induction false} ElsewhereUnchanged(w: World, w': World, gw: Source, k: ServiceName)
    requires WorldOk(w, gw) && w.clock <= w'.clock
    requires forall j | j != k ::
               (j in w'.entries <==> j in w.entries) &&
               (j in w.entries ==> w'.entries[j] == w.entries[j])
    requires k in w'.entries ==> 0 < w'.entries[k].index <= w'.clock && |OwnAt(w', gw, k)| <= 1
    ensures WorldOk(w', gw)
    ensures forall j: ServiceName | j != k :: Granted(w', gw, j) == Granted(w, gw, j)
  {
    forall j: ServiceName | j != k
      ensures OwnAt(w', gw, j) == OwnAt(w, gw, j)
    {
      assert SourcesAt(w', j) == SourcesAt(w, j);
    }
  }

  lemma {:induction false} OwnUpdated(ss: seq<Source>, gw: Source, add: bool)
    requires |Own(ss, gw)| <= 1 && Modifies(ss, gw, add)
    ensures Own(Updated(ss, gw, add), gw) == if add then [gw] else []
  {
    UpdateKeepsOthers(ss, gw, add);
    OwnAtFirst(ss, gw);
  }

  lemma {:induction false} StoredSources(now: World, gw: Source, k: ServiceName, ss: seq<Source>, add: bool)
    requires WorldOk(now, gw) && Own(ss, gw) == if add then [gw] else []
    ensures WorldOk(Stored(now, k, ss), gw) && Effect(now, Stored(now, k, ss), gw, k, add, false)
  {
    assert SourcesAt(Stored(now, k, ss), k) == ss;
    ElsewhereUnchanged(now, Stored(now, k, ss), gw, k);
  }

  lemma {:induction false} StoredEffect(now: World, gw: Source, k: ServiceName, add: bool)
    requires WorldOk(now, gw) && Modifies(SourcesAt(now, k), gw, add)
    ensures var w' := Stored(now, k, Updated(SourcesAt(now, k), gw, add));
            WorldOk(w', gw) && Effect(now, w', gw, k, add, false)
  {
    assert |OwnAt(now, gw, k)| <= 1;
    OwnUpdated(SourcesAt(now, k), gw, add);
    StoredSources(now, gw, k, Updated(SourcesAt(now, k), gw, add), add);
  }

  /** Deleting at k only ever takes the gateway's source away. */
  lemma {:induction false} DeletedEffect(now: World, gw: Source, k: ServiceName)
    requires WorldOk(now, gw)
    ensures WorldOk(Deleted(now, k), gw) && Effect(now, Deleted(now, k), gw, k, false, false)
  {
    var w' := Deleted(now, k);
    forall j: ServiceName | j != k
      ensures SourcesAt(w', j) == SourcesAt(now, j)
    {}
  }

  /** Nothing but others' writes took place. */
  lemma {:induction false} NoEffect(w: World, w': World, gw: Source, k: ServiceName, add: bool, err: bool)
    requires WorldOk(w, gw) && Foreign(w, w', gw) && (!err ==> Granted(w, gw, k) == add)
    ensures WorldOk(w', gw) && Effect(w, w', gw, k, add, err)
  {
    ForeignKeeps(w, w', gw);
  }

  lemma {:induction false} EffectAfterForeign(w: World, now: World, w': World, gw: Source, k: ServiceName, add: bool,
                                              err: bool)
    requires WorldOk(w, gw) && Foreign(w, now, gw) && Effect(now, w', gw, k, add, err)
    ensures Effect(w, w', gw, k, add, err)
  {
    ForeignKeeps(w, now, gw);
  }

  /** A failed attempt followed by another attempt. */
  lemma {:induction false} EffectsCompose(a: World, b: World, c: World, gw: Source, k: ServiceName, add: bool,
                                          err: bool, err': bool)
    requires Effect(a, b, gw, k, add, err) && Effect(b, c, gw, k, add, err')
    ensures Effect(a, c, gw, k, add, err')
  {}

  // ----- What was done to Consul, step by step --------------------------------------------------------------------

  /** What Consul itself sees of the gateway: an intention is read, or a write takes effect. */
  datatype Event = Read(key: ServiceName, world: World) | Wrote(key: ServiceName, before: World, after: World)

  datatype Deed = Nothing | Cas | Delete

  /**
   * One attempt: the intention was read in the world read; others wrote until before, when Consul decided;
   * after is what the attempt made of it.
   */
  datatype Change = Change(key: ServiceName, add: bool, deed: Deed, read: World, before: World, after: World)

  /** Removing the gateway's source, as asked, leaves no source in the intention that was read. */
  ghost predicate Empties(c: Change, gw: Source) {
    var ss := SourcesAt(c.read, c.key);
    !c.add && Modifies(ss, gw, c.add) && Updated(ss, gw, c.add) == []
  }

  /** What the attempt did, once it had read the intention. */
  ghost predicate Done(c: Change, gw: Source) {
    && Foreign(c.read, c.before, gw)
    && match c.deed
       case Nothing => c.after == c.before
       case Cas =>
         && Modifies(SourcesAt(c.read, c.key), gw, c.add) && !Empties(c, gw)
         && Accepts(c.before, c.key, IndexAt(c.read, c.key))
         && c.after == Stored(c.before, c.key, Updated(SourcesAt(c.before, c.key), gw, c.add))
       case Delete => Empties(c, gw) && c.after == Deleted(c.before, c.key)
  }

  /** Between w and its end the attempt did nothing but its deed, and all else was done by others. */
  ghost predicate Accounted(w: World, c: Change, gw: Source) {
    Foreign(w, c.read, gw) && Done(c, gw)
  }

  /** What Consul sees of an attempt. */
  ghost function EventsOf(c: Change): seq<Event> {
    [Read(c.key, c.read)] + if c.deed.Nothing? then [] else [Wrote(c.key, c.before, c.after)]
  }

  ghost function Events(changes: seq<Change>): seq<Event> {
    if changes == [] then [] else Events(changes[..|changes| - 1]) + EventsOf(changes[|changes| - 1])
  }

  lemma {:induction false} EventsJoin(a: seq<Change>, b: seq<Change>)
    ensures Events(a + b) == Events(a) + Events(b)
    decreases |b|
  {
    if b == [] {
      assert a + b == a;
    } else {
      assert (a + b)[..|a + b| - 1] == a + b[..|b| - 1];
      EventsJoin(a, b[..|b| - 1]);
    }
  }

  /** The log has grown from log to log' by what Consul sees of the changes, and by nothing else. */
  ghost predicate Logged(log: seq<Event>, changes: seq<Change>, log': seq<Event>) {
    log' == log + Events(changes)
  }

  lemma {:induction false} LogsJoin(l0: seq<Event>, a: seq<Change>, l1: seq<Event>, b: seq<Change>, l2: seq<Event>)
    requires Logged(l0, a, l1) && Logged(l1, b, l2)
    ensures Logged(l0, a + b, l2)
  {
    EventsJoin(a, b);
    Associates(l0, Events(a), Events(b));
  }

  lemma {:induction false} Associates<T>(a: seq<T>, b: seq<T>, c: seq<T>)
    ensures (a + b) + c == a + (b + c)
  {}

  lemma {:induction false} LogOfOne(log: seq<Event>, c: Change)
    ensures Logged(log, [c], log + EventsOf(c))
  {
    assert [c][..0] == [];
  }

  ghost function WorldAt(w: World, changes: seq<Change>, i: nat): World
    requires i <= |changes|
  {
    if i == 0 then w else changes[i - 1].after
  }

  /** The changes lead from w to w' one after the other, each as ok demands of it and the world it starts from. */
  ghost predicate Linked(w: World, changes: seq<Change>, w': World, ok: (World, Change) -> bool) {
    && WorldAt(w, changes, |changes|) == w'
    && forall i | 0 <= i < |changes| :: ok(WorldAt(w, changes, i), changes[i])
  }

  ghost function AccountedFor(gw: Source): (World, Change) -> bool { (w, c) => Accounted(w, c, gw) }

  /** The changes lead from w to w', one after the other, with nothing but others' writes in between. */
  ghost predicate History(w: World, changes: seq<Change>, w': World, gw: Source) {
    Linked(w, changes, w', AccountedFor(gw))
  }

  lemma {:induction false} JoinedWorldAt(w: World, a: seq<Change>, w1: World, b: seq<Change>, i: nat)
    requires WorldAt(w, a, |a|) == w1 && i <= |a + b|
    ensures WorldAt(w, a + b, i) == if i <= |a| then WorldAt(w, a, i) else WorldAt(w1, b, i - |a|)
    ensures |a| <= i ==> WorldAt(w, a + b, i) == WorldAt(w1, b, i - |a|)
  {
    if 0 < i <= |a| {
      assert (a + b)[i - 1] == a[i - 1];
    } else if |a| < i {
      assert (a + b)[i - 1] == b[i - |a| - 1];
    }
  }

  lemma {:induction false} LinksJoin(w: World, a: seq<Change>, w1: World, b: seq<Change>, w2: World,
                                     ok: (World, Change) -> bool)
    requires Linked(w, a, w1, ok) && Linked(w1, b, w2, ok)
    ensures Linked(w, a + b, w2, ok)
  {
    forall i | 0 <= i < |a + b|
      ensures ok(WorldAt(w, a + b, i), (a + b)[i])
    {
      JoinedWorldAt(w, a, w1, b, i);
      if i < |a| {
        assert ok(WorldAt(w, a, i), a[i]);
      } else {
        assert ok(WorldAt(w1, b, i - |a|), b[i - |a|]);
      }
    }
    JoinedWorldAt(w, a, w1, b, |a + b|);
  }

  ghost predicate SameOthers(w: World, w': World, gw: Source, k: ServiceName) {
    Others(SourcesAt(w', k), gw) == Others(SourcesAt(w, k), gw)
  }

  ghost predicate OthersKept(w: World, w': World, gw: Source) {
    forall k: ServiceName :: SameOthers(w, w', gw, k)
  }

  /** Others have added sources to an intention that was read as one to be emptied. */
  ghost predicate Raced(c: Change, gw: Source) {
    Empties(c, gw) && Others(SourcesAt(c.before, c.key), gw) != []
  }

  /**
   * An attempt keeps all sources but the gateway's, at every key, unless it empties what it has read while
   * others have added sources to it since, and takes effect.
   */
  lemma {:induction false} AttemptKeepsOthersIff(c: Change, gw: Source)
    requires Done(c, gw)
    ensures OthersKept(c.before, c.after, gw) <==> (Raced(c, gw) ==> c.after == c.before)
    ensures Raced(c, gw) ==> !SameOthers(c.read, c.before, gw, c.key)
  {
    UpdateKeepsOthers(SourcesAt(c.read, c.key), gw, c.add);
    forall k: ServiceName | k != c.key
      ensures SameOthers(c.before, c.after, gw, k)
    {
      assert SourcesAt(c.after, k) == SourcesAt(c.before, k);
    }
    match c.deed
    case Nothing =>
      assert SameOthers(c.before, c.after, gw, c.key);
    case Cas =>
      UpdateKeepsOthers(SourcesAt(c.before, c.key), gw, c.add);
      assert SameOthers(c.before, c.after, gw, c.key);
    case Delete =>
      assert SourcesAt(c.after, c.key) == [];
      assert SameOthers(c.before, c.after, gw, c.key) <==> Others(SourcesAt(c.before, c.key), gw) == [];
  }

  /** No write that took effect changed the sources of others, as they were at that moment, at any key. */
  ghost predicate LosesNothing(log: seq<Event>, gw: Source) {
    forall i | 0 <= i < |log| && log[i].Wrote? :: OthersKept(log[i].before, log[i].after, gw)
  }

  /** No attempt took effect that emptied an intention to which others had added since it was read. */
  ghost predicate NoneRaced(changes: seq<Change>, gw: Source) {
    forall i | 0 <= i < |changes| && Raced(changes[i], gw) :: changes[i].after == changes[i].before
  }

  lemma {:induction false} NoneRacedLast(changes: seq<Change>, gw: Source)
    requires changes != []
    ensures var init, c := changes[..|changes| - 1], changes[|changes| - 1];
            NoneRaced(changes, gw) <==> NoneRaced(init, gw) && NoneRaced([c], gw)
  {
    var init, c := changes[..|changes| - 1], changes[|changes| - 1];
    assert forall i | 0 <= i < |init| :: changes[i] == init[i];
    assert [c][0] == c;
  }

  lemma {:induction false} EventsOfKeepOthersIff(c: Change, gw: Source)
    requires OthersKept(c.before, c.after, gw) <==> (Raced(c, gw) ==> c.after == c.before)
    requires c.deed.Nothing? ==> c.after == c.before
    ensures LosesNothing(EventsOf(c), gw) <==> NoneRaced([c], gw)
  {
    assert NoneRaced([c], gw) <==> (Raced(c, gw) ==> c.after == c.before) by {
      assert [c][0] == c;
    }
    if !c.deed.Nothing? {
      assert EventsOf(c)[1] == Wrote(c.key, c.before, c.after);
    }
  }

  lemma {:induction false} EventsKeepOthersIff(changes: seq<Change>, gw: Source)
    requires forall i | 0 <= i < |changes| :: LosesNothing(EventsOf(changes[i]), gw) <==> NoneRaced([changes[i]], gw)
    ensures LosesNothing(Events(changes), gw) <==> NoneRaced(changes, gw)
  {
    if changes != [] {
      var init, c := changes[..|changes| - 1], changes[|changes| - 1];
      EventsKeepOthersIff(init, gw);
      LosesNothingJoin(Events(init), EventsOf(c), gw);
      NoneRacedLast(changes, gw);
    }
  }

  lemma {:induction false} LosesNothingJoin(a: seq<Event>, b: seq<Event>, gw: Source)
    ensures LosesNothing(a + b, gw) <==> LosesNothing(a, gw) && LosesNothing(b, gw)
  {
    assert forall i | 0 <= i < |a| :: (a + b)[i] == a[i];
    assert forall i | 0 <= i < |b| :: (a + b)[|a| + i] == b[i];
  }

  /**
   * Whatever others write meanwhile: of all the gateway's writes that took effect, none lost what others
   * had stored at that moment, if and only if none emptied an intention that others had added to.
   */
  lemma {:induction false} HistoryKeepsOthersIff(w: World, changes: seq<Change>, w': World, gw: Source)
    requires History(w, changes, w', gw)
    ensures LosesNothing(Events(changes), gw) <==> NoneRaced(changes, gw)
    ensures (forall i | 0 <= i < |changes| :: changes[i].add) ==> LosesNothing(Events(changes), gw)
  {
    forall i | 0 <= i < |changes|
      ensures LosesNothing(EventsOf(changes[i]), gw) <==> NoneRaced([changes[i]], gw)
    {
      assert AccountedFor(gw)(WorldAt(w, changes, i), changes[i]);
      AttemptKeepsOthersIff(changes[i], gw);
      EventsOfKeepOthersIff(changes[i], gw);
    }
    EventsKeepOthersIff(changes, gw);
  }
}
