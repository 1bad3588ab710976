// Pushing computed entries to Consul, one write at a time (internal/adapters/consul/sync.go). Consul
// has no transactions and any write may fail, applied or not; the write order is what keeps the
// stored entries usable in between.

module SyncSpec {
  import opened Wrappers
  import opened ConsulEntries
  import opened ConfigEntries
  import opened ChainSpec
  import opened Naming

  // ----- Consul's side -------------------------------------------------------------------------------

  datatype Key = Key(kind: Kind, name: string)

  /** The entries stored in Consul for one gateway; names of different gateways are disjoint. */
  type Stored = map<Key, ConfigEntry>

  function KeyOf(e: ConfigEntry): Key { Key(e.Kind(), e.Name()) }

  datatype Write = Put(entry: ConfigEntry) | Remove(key: Key)
  {
    function Target(): Key { if Put? then KeyOf(entry) else key }
  }

  /** A write succeeds, fails without effect, or fails although it took effect. */
  datatype WriteOutcome = Ok | Lost | AppliedButFailed

  datatype Event = Event(write: Write, outcome: WriteOutcome)

  function Applied(c: Stored, w: Write): Stored {
    if w.Put? then c[KeyOf(w.entry) := w.entry] else c - {w.key}
  }

  function After(c: Stored, e: Event): Stored {
    if e.outcome.Lost? then c else Applied(c, e.write)
  }

  function Replay(c: Stored, log: seq<Event>): Stored {
    if log == [] then c else After(Replay(c, log[..|log| - 1]), log[|log| - 1])
  }

  // ----- Batches ---------------------------------------------------------------------------------------

  /** The log of one batch: every write of the batch is attempted, and nothing else. */
  ghost predicate Attempts(log: seq<Event>, ws: iset<Write>) {
    && (forall i | 0 <= i < |log| :: log[i].write in ws)
    && (forall w | w in ws :: exists i | 0 <= i < |log| :: log[i].write == w)
  }

  predicate AllOk(log: seq<Event>) {
    forall i | 0 <= i < |log| :: log[i].outcome.Ok?
  }

  type Plan = seq<iset<Write>>

  /** A plan is executed batch by batch; after a batch with a failure nothing more is attempted. */
  ghost predicate Executes(logs: seq<seq<Event>>, plan: Plan) {
    && 0 < |logs| <= |plan|
    && (forall k | 0 <= k < |logs| :: Attempts(logs[k], plan[k]))
    && (forall k | 0 <= k < |logs| - 1 :: AllOk(logs[k]))
    && (|logs| < |plan| ==> !AllOk(logs[|logs| - 1]))
  }

  ghost predicate Completes(logs: seq<seq<Event>>, plan: Plan) {
    Executes(logs, plan) && |logs| == |plan| && AllOk(logs[|logs| - 1])
  }

  function Flatten(logs: seq<seq<Event>>): seq<Event> {
    if logs == [] then [] else Flatten(logs[..|logs| - 1]) + logs[|logs| - 1]
  }

  // ----- What Sync and Clear write -----------------------------------------------------------------------

  function Puts(idx: Index): iset<Write> { iset n | n in idx :: Put(idx[n]) }

  function Removes(idx: Index, kind: Kind): iset<Write> { iset n | n in idx :: Remove(Key(kind, n)) }

  const NOTHING: Computed := Computed(IngressGateway("", "", map[], None, []), map[], map[], map[])

  /** New entries first, defaults before all; then the ingress; then what is no longer computed. */
  function SyncBatch(existing: Computed, c: Computed, k: nat): iset<Write>
    requires k < 7
  {
    if k == 0 then Puts(c.defaults)
    else if k == 1 then Puts(c.routers)
    else if k == 2 then Puts(c.splitters)
    else if k == 3 then iset{Put(IngressEntry(c.ingress))}
    else if k == 4 then Removes(Missing(c.routers, existing.routers), RouterKind)
    else if k == 5 then Removes(Missing(c.splitters, existing.splitters), SplitterKind)
    else Removes(Missing(c.defaults, existing.defaults), DefaultsKind)
  }

  function SyncPlan(existing: Computed, c: Computed): (p: Plan)
    ensures |p| == 7
  {
    seq(7, k requires 0 <= k < 7 => SyncBatch(existing, c, k))
  }

  /** The ingress first, the defaults last. */
  function ClearBatch(existing: Computed, k: nat): iset<Write>
    requires k < 4
  {
    if k == 0 then iset{Remove(Key(IngressKind, existing.ingress.name))}
    else if k == 1 then Removes(existing.routers, RouterKind)
    else if k == 2 then Removes(existing.splitters, SplitterKind)
    else Removes(existing.defaults, DefaultsKind)
  }

  function ClearPlan(existing: Computed): (p: Plan)
    ensures |p| == 4
  {
    seq(4, k requires 0 <= k < 4 => ClearBatch(existing, k))
  }

  // ----- Safety -------------------------------------------------------------------------------------------

  /** The gateway's name, and its naming of virtual services. */
  datatype Names = Names(service: string, crc: string -> nat)

  ghost predicate Virtual(nm: Names, n: string) {
    exists host: string, i: nat :: n == VirtualName(RouterName(nm.service, nm.crc, host), i)
  }

  /** Every router and splitter has service-defaults of its name. */
  ghost predicate DefaultsInPlace(c: Stored) {
    forall n: string | Key(RouterKind, n) in c || Key(SplitterKind, n) in c :: Key(DefaultsKind, n) in c
  }

  ghost predicate Ready(c: Stored, n: string) {
    Key(RouterKind, n) in c && Key(DefaultsKind, n) in c
  }

  /** Every HTTP service of the stored ingress has its router and its service-defaults. */
  ghost predicate IngressServed(c: Stored, name: string) {
    Key(IngressKind, name) in c ==>
      c[Key(IngressKind, name)].IngressEntry? &&
      forall n: string | IsHttpService(c[Key(IngressKind, name)].ingress, n) :: Ready(c, n)
  }

  ghost predicate Safe(c: Stored, name: string) {
    DefaultsInPlace(c) && IngressServed(c, name)
  }

  /** Stored routers are not named like virtual services; stored splitters are. */
  ghost predicate NamesApart(c: Stored, nm: Names) {
    && (forall n: string | Key(RouterKind, n) in c :: !Virtual(nm, n))
    && (forall n: string | Key(SplitterKind, n) in c :: Virtual(nm, n))
  }

  ghost predicate Good(c: Stored, nm: Names) {
    Safe(c, nm.service) && NamesApart(c, nm)
  }

  /** A set of entries that was computed for the gateway. */
  ghost predicate ComputedFor(e: Computed, nm: Names) {
    && Consistent(e) && e.ingress.name == nm.service
    && (forall n | n in e.routers :: !Virtual(nm, n))
    && (forall n | n in e.splitters :: Virtual(nm, n))
  }

  // ----- One phase at a time ---------------------------------------------------------------------------------

  /** The entries of idx are stored. */
  ghost predicate Holds(c: Stored, idx: Index, kind: Kind) {
    forall n | n in idx :: Key(kind, n) in c && c[Key(kind, n)] == idx[n]
  }

  ghost predicate Lacks(c: Stored, idx: Index, kind: Kind) {
    forall n | n in idx :: Key(kind, n) !in c
  }

  /** What is known before batch k of a Sync, and kept by every write of batch k. */
  ghost predicate SyncPhase(k: nat, c: Stored, prev: Computed, e: Computed, nm: Names) {
    && Good(c, nm)
    && (k >= 1 ==> Holds(c, e.defaults, DefaultsKind))
    && (k >= 2 ==> Holds(c, e.routers, RouterKind))
    && (k >= 3 ==> Holds(c, e.splitters, SplitterKind))
    && (k >= 4 ==> Key(IngressKind, nm.service) in c && c[Key(IngressKind, nm.service)] == IngressEntry(e.ingress))
    && (k >= 5 ==> Lacks(c, Missing(e.routers, prev.routers), RouterKind))
    && (k >= 6 ==> Lacks(c, Missing(e.splitters, prev.splitters), SplitterKind))
    && (k >= 7 ==> Lacks(c, Missing(e.defaults, prev.defaults), DefaultsKind))
  }

  ghost predicate ClearPhase(k: nat, c: Stored, prev: Computed, nm: Names) {
    && Good(c, nm)
    && (k >= 1 ==> Key(IngressKind, nm.service) !in c)
    && (k >= 2 ==> Lacks(c, prev.routers, RouterKind))
    && (k >= 3 ==> Lacks(c, prev.splitters, SplitterKind))
    && (k >= 4 ==> Lacks(c, prev.defaults, DefaultsKind))
  }

  ghost predicate Known(prev: Computed, nm: Names) {
    prev == NOTHING || ComputedFor(prev, nm)
  }

  /** Any single write of batch k of a Sync keeps the phase. */
  lemma {:induction false} SyncWriteKeepsPhase(k: nat, c: Stored, prev: Computed, e: Computed, nm: Names, w: Write)
    requires k < 7 && SyncPhase(k, c, prev, e, nm) && Known(prev, nm) && ComputedFor(e, nm)
    requires w in SyncBatch(prev, e, k)
    ensures SyncPhase(k, Applied(c, w), prev, e, nm)
  {
    if k == 0 { SetDefaultsKeeps(c, prev, e, nm, w); }
    else if k == 1 { SetRoutersKeeps(c, prev, e, nm, w); }
    else if k == 2 { SetSplittersKeeps(c, prev, e, nm, w); }
    else if k == 3 { SetIngressKeeps(c, prev, e, nm, w); }
    else if k == 4 { RemoveRoutersKeeps(c, prev, e, nm, w); }
    else if k == 5 { RemoveSplittersKeeps(c, prev, e, nm, w); }
    else { RemoveDefaultsKeeps(c, prev, e, nm, w); }
  }

  lemma {:induction false} SetDefaultsKeeps(c: Stored, prev: Computed, e: Computed, nm: Names, w: Write)
    requires SyncPhase(0, c, prev, e, nm) && ComputedFor(e, nm) && w in Puts(e.defaults)
    ensures SyncPhase(0, Applied(c, w), prev, e, nm)
  {}

  lemma {:induction false} SetRoutersKeeps(c: Stored, prev: Computed, e: Computed, nm: Names, w: Write)
    requires SyncPhase(1, c, prev, e, nm) && ComputedFor(e, nm) && w in Puts(e.routers)
    ensures SyncPhase(1, Applied(c, w), prev, e, nm)
  {
    assert w.entry.Name() in e.routers;
    assert w.entry.Name() in e.defaults;
  }

  lemma {:induction false} SetSplittersKeeps(c: Stored, prev: Computed, e: Computed, nm: Names, w: Write)
    requires SyncPhase(2, c, prev, e, nm) && ComputedFor(e, nm) && w in Puts(e.splitters)
    ensures SyncPhase(2, Applied(c, w), prev, e, nm)
  {
    assert w.entry.Name() in e.splitters;
    assert w.entry.Name() in e.defaults;
  }

  lemma {:induction false} SetIngressKeeps(c: Stored, prev: Computed, e: Computed, nm: Names, w: Write)
    requires SyncPhase(3, c, prev, e, nm) && ComputedFor(e, nm) && w == Put(IngressEntry(e.ingress))
    ensures SyncPhase(3, Applied(c, w), prev, e, nm)
  {
    var c' := Applied(c, w);
    forall n: string | IsHttpService(e.ingress, n)
      ensures Ready(c', n)
    {
      assert n in e.routers && n in e.defaults;
      assert Key(RouterKind, n) in c && Key(DefaultsKind, n) in c;
    }
  }

  lemma {:induction false} RemoveRoutersKeeps(c: Stored, prev: Computed, e: Computed, nm: Names, w: Write)
    requires SyncPhase(4, c, prev, e, nm) && ComputedFor(e, nm)
    requires w in Removes(Missing(e.routers, prev.routers), RouterKind)
    ensures SyncPhase(4, Applied(c, w), prev, e, nm)
  {
    var c' := Applied(c, w);
    assert w.key.name !in e.routers;
    forall n: string | IsHttpService(e.ingress, n)
      ensures Ready(c', n)
    {
      assert n in e.routers;
      assert Ready(c, n);
    }
  }

  lemma {:induction false} RemoveSplittersKeeps(c: Stored, prev: Computed, e: Computed, nm: Names, w: Write)
    requires SyncPhase(5, c, prev, e, nm) && ComputedFor(e, nm)
    requires w in Removes(Missing(e.splitters, prev.splitters), SplitterKind)
    ensures SyncPhase(5, Applied(c, w), prev, e, nm)
  {
    var c' := Applied(c, w);
    forall n: string | IsHttpService(e.ingress, n)
      ensures Ready(c', n)
    {
      assert Ready(c, n);
    }
  }

  /** By the time defaults are removed, no router and no splitter of that name is left. */
  lemma {:induction false} NoUserOfRemovedDefault(c: Stored, prev: Computed, e: Computed, nm: Names, d: string)
    requires SyncPhase(6, c, prev, e, nm) && Known(prev, nm) && ComputedFor(e, nm)
    requires d in prev.defaults && d !in e.defaults
    ensures Key(RouterKind, d) !in c && Key(SplitterKind, d) !in c
  {
    if d in prev.routers {
      assert d in Missing(e.routers, prev.routers);
    } else {
      assert d in Missing(e.splitters, prev.splitters);
    }
  }

  lemma {:induction false} RemoveUnusedDefault(c: Stored, name: string, d: string)
    requires Safe(c, name) && Key(RouterKind, d) !in c && Key(SplitterKind, d) !in c
    ensures Safe(c - {Key(DefaultsKind, d)}, name)
  {
    var c' := c - {Key(DefaultsKind, d)};
    assert forall n: string | Ready(c, n) :: Ready(c', n);
  }

  lemma {:induction false} StillHolds(c: Stored, idx: Index, kind: Kind, key: Key)
    requires Holds(c, idx, kind) && (key.kind != kind || key.name !in idx)
    ensures Holds(c - {key}, idx, kind)
  {}

  lemma {:induction false} RemoveDefaultKeeps(c: Stored, prev: Computed, e: Computed, nm: Names, d: string)
    requires SyncPhase(6, c, prev, e, nm) && Known(prev, nm) && ComputedFor(e, nm)
    requires d in prev.defaults && d !in e.defaults
    ensures SyncPhase(6, c - {Key(DefaultsKind, d)}, prev, e, nm)
  {
    NoUserOfRemovedDefault(c, prev, e, nm, d);
    RemoveUnusedDefault(c, nm.service, d);
    StillHolds(c, e.defaults, DefaultsKind, Key(DefaultsKind, d));
    StillHolds(c, e.routers, RouterKind, Key(DefaultsKind, d));
    StillHolds(c, e.splitters, SplitterKind, Key(DefaultsKind, d));
  }

  lemma {:induction false} RemoveDefaultsKeeps(c: Stored, prev: Computed, e: Computed, nm: Names, w: Write)
    requires SyncPhase(6, c, prev, e, nm) && Known(prev, nm) && ComputedFor(e, nm)
    requires w in Removes(Missing(e.defaults, prev.defaults), DefaultsKind)
    ensures SyncPhase(6, Applied(c, w), prev, e, nm)
  {
    RemoveDefaultKeeps(c, prev, e, nm, w.key.name);
  }

  lemma {:induction false} ClearWriteKeepsPhase(k: nat, c: Stored, prev: Computed, nm: Names, w: Write)
    requires k < 4 && ClearPhase(k, c, prev, nm) && ComputedFor(prev, nm)
    requires w in ClearBatch(prev, k)
    ensures ClearPhase(k, Applied(c, w), prev, nm)
  {
    if k == 3 {
      var d := w.key.name;
      assert Key(RouterKind, d) !in c && Key(SplitterKind, d) !in c by {
        assert d in prev.routers || d in prev.splitters;
      }
    }
  }
}
