// Whole runs of Sync and Clear: safety after every single write, exactness, convergence of retries.

module SyncRuns {
  import opened Wrappers
  import opened ConsulEntries
  import opened ConfigEntries
  import opened ChainSpec
  import opened SyncSpec

  // ----- One call ------------------------------------------------------------------------------------------

  /** What a call works from: the entries last synced completely, and the entries now computed. */
  datatype Work = SyncWork(prev: Computed, next: Computed) | ClearWork(prev: Computed)
  {
    function Plan(): Plan { if SyncWork? then SyncPlan(prev, next) else ClearPlan(prev) }

    function Batch(k: nat): iset<Write>
      requires k < |Plan()|
    {
      if SyncWork? then SyncBatch(prev, next, k) else ClearBatch(prev, k)
    }

    ghost predicate Legal(nm: Names) {
      if SyncWork? then Known(prev, nm) && ComputedFor(next, nm) else ComputedFor(prev, nm)
    }

    ghost predicate Phase(k: nat, c: Stored, nm: Names) {
      if SyncWork? then SyncPhase(k, c, prev, next, nm) else ClearPhase(k, c, prev, nm)
    }
  }

  lemma {:induction false} EventKeepsPhase(w: Work, k: nat, c: Stored, nm: Names, e: Event)
    requires w.Legal(nm) && k < |w.Plan()| && w.Phase(k, c, nm) && e.write in w.Batch(k)
    ensures w.Phase(k, After(c, e), nm)
  {
    if w.SyncWork? {
      SyncWriteKeepsPhase(k, c, w.prev, w.next, nm, e.write);
    } else {
      ClearWriteKeepsPhase(k, c, w.prev, nm, e.write);
    }
  }

  lemma {:induction false} LogKeepsPhase(w: Work, k: nat, c: Stored, nm: Names, log: seq<Event>)
    requires w.Legal(nm) && k < |w.Plan()| && w.Phase(k, c, nm)
    requires forall i | 0 <= i < |log| :: log[i].write in w.Batch(k)
    ensures w.Phase(k, Replay(c, log), nm)
  {
    if log != [] {
      LogKeepsPhase(w, k, c, nm, log[..|log| - 1]);
      EventKeepsPhase(w, k, Replay(c, log[..|log| - 1]), nm, log[|log| - 1]);
    }
  }

  // ----- A batch without failures leaves every one of its writes in effect -------------------------------------

  predicate InEffect(c: Stored, w: Write) {
    if w.Put? then KeyOf(w.entry) in c && c[KeyOf(w.entry)] == w.entry else w.key !in c
  }

  /** No two writes of the batch contradict each other. */
  ghost predicate Agreeing(ws: iset<Write>) {
    forall v, w | v in ws && w in ws && v.Target() == w.Target() :: v == w
  }

  lemma {:induction false} OkWritesInEffect(c: Stored, log: seq<Event>, ws: iset<Write>, i: nat)
    requires Agreeing(ws) && AllOk(log) && i < |log|
    requires forall i | 0 <= i < |log| :: log[i].write in ws
    ensures InEffect(Replay(c, log), log[i].write)
  {
    var init, last := log[..|log| - 1], log[|log| - 1];
    if i < |init| {
      assert init[i] == log[i];
      OkWritesInEffect(c, init, ws, i);
      assert log[i].write in ws && last.write in ws;
    }
  }

  lemma {:induction false} BatchInEffect(c: Stored, log: seq<Event>, ws: iset<Write>)
    requires Agreeing(ws) && AllOk(log) && Attempts(log, ws)
    ensures forall w | w in ws :: InEffect(Replay(c, log), w)
  {
    forall w | w in ws
      ensures InEffect(Replay(c, log), w)
    {
      var i :| 0 <= i < |log| && log[i].write == w;
      OkWritesInEffect(c, log, ws, i);
    }
  }

  lemma {:induction false} PutsAgree(idx: Index, kind: Kind)
    requires Indexed(idx, kind)
    ensures Agreeing(Puts(idx))
  {}

  lemma {:induction false} PutsInEffect(c: Stored, idx: Index, kind: Kind)
    requires Indexed(idx, kind) && forall w | w in Puts(idx) :: InEffect(c, w)
    ensures Holds(c, idx, kind)
  {
    forall n | n in idx
      ensures Key(kind, n) in c && c[Key(kind, n)] == idx[n]
    {
      assert Put(idx[n]) in Puts(idx);
    }
  }

  lemma {:induction false} RemovesInEffect(c: Stored, idx: Index, kind: Kind)
    requires forall w | w in Removes(idx, kind) :: InEffect(c, w)
    ensures Lacks(c, idx, kind)
  {
    forall n | n in idx
      ensures Key(kind, n) !in c
    {
      assert Remove(Key(kind, n)) in Removes(idx, kind);
    }
  }

  lemma {:induction false} RemovesAgree(idx: Index, kind: Kind)
    ensures Agreeing(Removes(idx, kind))
  {}

  lemma {:induction false} PlanAgrees(w: Work, k: nat, nm: Names)
    requires w.Legal(nm) && k < |w.Plan()|
    ensures Agreeing(w.Batch(k))
  {
    var p := w.prev;
    if w.SyncWork? {
      var e := w.next;
      if k == 0 { PutsAgree(e.defaults, DefaultsKind); }
      else if k == 1 { PutsAgree(e.routers, RouterKind); }
      else if k == 2 { PutsAgree(e.splitters, SplitterKind); }
      else if k == 4 { RemovesAgree(Missing(e.routers, p.routers), RouterKind); }
      else if k == 5 { RemovesAgree(Missing(e.splitters, p.splitters), SplitterKind); }
      else if k == 6 { RemovesAgree(Missing(e.defaults, p.defaults), DefaultsKind); }
    } else {
      if k == 1 { RemovesAgree(p.routers, RouterKind); }
      else if k == 2 { RemovesAgree(p.splitters, SplitterKind); }
      else if k == 3 { RemovesAgree(p.defaults, DefaultsKind); }
    }
  }

  /** A batch without failures brings the call into its next phase. */
  lemma {:induction false} PhaseAdvances(w: Work, k: nat, c: Stored, nm: Names, log: seq<Event>)
    requires w.Legal(nm) && k < |w.Plan()| && w.Phase(k, c, nm)
    requires Attempts(log, w.Batch(k)) && AllOk(log)
    ensures w.Phase(k + 1, Replay(c, log), nm)
  {
    LogKeepsPhase(w, k, c, nm, log);
    PlanAgrees(w, k, nm);
    BatchInEffect(c, log, w.Batch(k));
    var c' := Replay(c, log);
    if w.SyncWork? {
      SyncBatchDone(k, c', w.prev, w.next, nm);
    } else {
      ClearBatchDone(k, c', w.prev, nm);
    }
  }

  lemma {:induction false} SyncBatchDone(k: nat, c: Stored, prev: Computed, e: Computed, nm: Names)
    requires k < 7 && SyncPhase(k, c, prev, e, nm) && ComputedFor(e, nm)
    requires forall w | w in SyncBatch(prev, e, k) :: InEffect(c, w)
    ensures SyncPhase(k + 1, c, prev, e, nm)
  {
    if k == 0 { PutsInEffect(c, e.defaults, DefaultsKind); }
    else if k == 1 { PutsInEffect(c, e.routers, RouterKind); }
    else if k == 2 { PutsInEffect(c, e.splitters, SplitterKind); }
    else if k == 3 { assert Put(IngressEntry(e.ingress)) in SyncBatch(prev, e, 3); }
    else if k == 4 { RemovesInEffect(c, Missing(e.routers, prev.routers), RouterKind); }
    else if k == 5 { RemovesInEffect(c, Missing(e.splitters, prev.splitters), SplitterKind); }
    else { RemovesInEffect(c, Missing(e.defaults, prev.defaults), DefaultsKind); }
  }

  lemma {:induction false} ClearBatchDone(k: nat, c: Stored, prev: Computed, nm: Names)
    requires k < 4 && ClearPhase(k, c, prev, nm) && ComputedFor(prev, nm)
    requires forall w | w in ClearBatch(prev, k) :: InEffect(c, w)
    ensures ClearPhase(k + 1, c, prev, nm)
  {
    if k == 0 { assert Remove(Key(IngressKind, prev.ingress.name)) in ClearBatch(prev, 0); }
    else if k == 1 { RemovesInEffect(c, prev.routers, RouterKind); }
    else if k == 2 { RemovesInEffect(c, prev.splitters, SplitterKind); }
    else { RemovesInEffect(c, prev.defaults, DefaultsKind); }
  }

  // ----- The writes of a whole call --------------------------------------------------------------------------------

  lemma {:induction false} ReplayConcat(c: Stored, a: seq<Event>, b: seq<Event>)
    ensures Replay(c, a + b) == Replay(Replay(c, a), b)
    decreases |b|
  {
    if b == [] {
      assert a + b == a;
    } else {
      assert (a + b)[..|a + b| - 1] == a + b[..|b| - 1];
      ReplayConcat(c, a, b[..|b| - 1]);
    }
  }

  /** The first n batches went through. */
  lemma {:induction false} BatchesAdvance(w: Work, c: Stored, nm: Names, logs: seq<seq<Event>>, n: nat)
    requires w.Legal(nm) && w.Phase(0, c, nm) && n <= |logs| <= |w.Plan()|
    requires forall k | 0 <= k < n :: Attempts(logs[k], w.Plan()[k]) && AllOk(logs[k])
    ensures w.Phase(n, Replay(c, Flatten(logs[..n])), nm)
  {
    if n > 0 {
      BatchesAdvance(w, c, nm, logs, n - 1);
      assert logs[..n][..n - 1] == logs[..n - 1];
      ReplayConcat(c, Flatten(logs[..n - 1]), logs[n - 1]);
      PhaseAdvances(w, n - 1, Replay(c, Flatten(logs[..n - 1])), nm, logs[n - 1]);
    } else {
      assert Flatten(logs[..0]) == [];
    }
  }

  /** Every position in the writes of a call lies in some batch k, all batches before which went through. */
  lemma {:induction false} LocatePrefix(logs: seq<seq<Event>>, n: nat, i: nat) returns (k: nat, j: nat)
    requires 0 < n <= |logs| && i <= |Flatten(logs[..n])|
    ensures k < n && j <= |logs[k]|
    ensures Flatten(logs[..n])[..i] == Flatten(logs[..k]) + logs[k][..j]
  {
    var init := Flatten(logs[..n - 1]);
    assert logs[..n][..n - 1] == logs[..n - 1];
    assert Flatten(logs[..n]) == init + logs[n - 1];
    if i <= |init| && n > 1 {
      k, j := LocatePrefix(logs, n - 1, i);
      assert Flatten(logs[..n])[..i] == init[..i];
    } else {
      k, j := n - 1, i - |init|;
    }
  }

  /** After every single write of a call, whatever failed, the stored entries are safe. */
  lemma {:induction false} EveryPrefixIsGood(w: Work, c: Stored, nm: Names, logs: seq<seq<Event>>, i: nat)
    requires w.Legal(nm) && Good(c, nm) && Executes(logs, w.Plan()) && i <= |Flatten(logs)|
    ensures Good(Replay(c, Flatten(logs)[..i]), nm)
  {
    assert logs[..|logs|] == logs;
    var k, j := LocatePrefix(logs, |logs|, i);
    BatchesAdvance(w, c, nm, logs, k);
    var before := Replay(c, Flatten(logs[..k]));
    LogKeepsPhase(w, k, before, nm, logs[k][..j]);
    ReplayConcat(c, Flatten(logs[..k]), logs[k][..j]);
  }

  lemma {:induction false} CompletedCall(w: Work, c: Stored, nm: Names, logs: seq<seq<Event>>)
    requires w.Legal(nm) && Good(c, nm) && Completes(logs, w.Plan())
    ensures w.Phase(|w.Plan()|, Replay(c, Flatten(logs)), nm)
  {
    assert logs[..|logs|] == logs;
    BatchesAdvance(w, c, nm, logs, |logs|);
  }

  // ----- Runs --------------------------------------------------------------------------------------------------------

  /** A gateway in the adapter: what is stored in Consul, and what the adapter remembers. */
  datatype Gateway = Gateway(stored: Stored, synced: Option<Computed>)

  datatype Call = Sync(next: Computed, logs: seq<seq<Event>>) | Clear(logs: seq<seq<Event>>)

  function Remembered(g: Gateway): Computed {
    if g.synced.Some? then g.synced.value else NOTHING
  }

  function WorkOf(g: Gateway, call: Call): Work {
    if call.Sync? then SyncWork(Remembered(g), call.next) else ClearWork(Remembered(g))
  }

  /** The call attempts its plan; clearing an unknown gateway attempts nothing. */
  ghost predicate Possible(g: Gateway, call: Call, nm: Names) {
    if call.Clear? && g.synced.None? then call.logs == []
    else (call.Sync? ==> ComputedFor(call.next, nm)) && Executes(call.logs, WorkOf(g, call).Plan())
  }

  ghost predicate Succeeds(g: Gateway, call: Call) {
    (call.Clear? && g.synced.None?) || Completes(call.logs, WorkOf(g, call).Plan())
  }

  /** Only a call whose writes all succeed changes what the adapter remembers. */
  ghost function Step(g: Gateway, call: Call): Gateway {
    Gateway(Replay(g.stored, Flatten(call.logs)),
            if !Succeeds(g, call) then g.synced else if call.Sync? then Some(call.next) else None)
  }

  ghost predicate Inv(g: Gateway, nm: Names) {
    Good(g.stored, nm) && (g.synced.Some? ==> ComputedFor(g.synced.value, nm))
  }

  lemma {:induction false} StepKeepsInv(g: Gateway, call: Call, nm: Names)
    requires Inv(g, nm) && Possible(g, call, nm)
    ensures Inv(Step(g, call), nm)
    ensures forall i | 0 <= i <= |Flatten(call.logs)| :: Good(Replay(g.stored, Flatten(call.logs)[..i]), nm)
  {
    var log := Flatten(call.logs);
    forall i | 0 <= i <= |log|
      ensures Good(Replay(g.stored, log[..i]), nm)
    {
      if call.Clear? && g.synced.None? {
        assert log[..i] == [];
      } else {
        EveryPrefixIsGood(WorkOf(g, call), g.stored, nm, call.logs, i);
      }
    }
    assert log[..|log|] == log;
  }

  ghost predicate Run(g: Gateway, calls: seq<Call>, g': Gateway, nm: Names)
    decreases |calls|
  {
    if calls == [] then g' == g else Possible(g, calls[0], nm) && Run(Step(g, calls[0]), calls[1..], g', nm)
  }

  lemma {:induction false} RunKeepsInv(g: Gateway, calls: seq<Call>, g': Gateway, nm: Names)
    requires Inv(g, nm) && Run(g, calls, g', nm)
    ensures Inv(g', nm)
    decreases |calls|
  {
    if calls != [] {
      StepKeepsInv(g, calls[0], nm);
      RunKeepsInv(Step(g, calls[0]), calls[1..], g', nm);
    }
  }

  const INITIAL: Gateway := Gateway(map[], None)

  /**
   * After every individual write of every call, in every run of Sync and Clear in which any write may
   * fail, applied or not: each stored router and splitter has its service-defaults, and each HTTP
   * service of the stored ingress has its router and its service-defaults.
   */
  lemma {:induction false} WritePrefixSafety(calls: seq<Call>, g: Gateway, call: Call, i: nat, nm: Names)
    requires Run(INITIAL, calls, g, nm) && Possible(g, call, nm) && i <= |Flatten(call.logs)|
    ensures Safe(Replay(g.stored, Flatten(call.logs)[..i]), nm.service)
  {
    InitialInv(nm);
    RunKeepsInv(INITIAL, calls, g, nm);
    StepKeepsInv(g, call, nm);
  }

  lemma {:induction false} InitialInv(nm: Names)
    ensures Inv(INITIAL, nm)
  {}

  // ----- Exactness ---------------------------------------------------------------------------------------------------

  /** The entries of one kind that a set of computed entries consists of. */
  function IndexOf(e: Computed, kind: Kind): Index {
    match kind
    case RouterKind => e.routers
    case SplitterKind => e.splitters
    case DefaultsKind => e.defaults
    case IngressKind => map[e.ingress.name := IngressEntry(e.ingress)]
  }

  /** Exactly the computed entries are stored, each with its computed contents. */
  ghost predicate Exact(c: Stored, e: Computed) {
    forall key: Key :: (key in c <==> key.name in IndexOf(e, key.kind)) &&
                       (key in c ==> c[key] == IndexOf(e, key.kind)[key.name])
  }

  /** What is stored matches what the adapter remembers. */
  ghost predicate InStep(g: Gateway) {
    if g.synced.Some? then Exact(g.stored, g.synced.value) else g.stored == map[]
  }

  /** Some write of the call's plan is directed at key. */
  ghost predicate Touches(w: Work, key: Key) {
    exists v: Write :: InPlan(w, v) && v.Target() == key
  }

  /** A write of the call's plan puts something at key. */
  ghost predicate MayPut(w: Work, key: Key) {
    w.SyncWork? && key.name in IndexOf(w.next, key.kind)
  }

  lemma {:induction false} PlannedPut(w: Work, k: nat, v: Write, nm: Names)
    requires w.Legal(nm) && k < |w.Plan()| && v in w.Batch(k) && v.Put?
    ensures MayPut(w, v.Target())
  {
    assert w.SyncWork? && k < 4;
  }

  ghost predicate InPlan(w: Work, v: Write) {
    exists k: nat :: k < |w.Plan()| && v in w.Batch(k)
  }

  ghost predicate Planned(w: Work, log: seq<Event>) {
    forall i | 0 <= i < |log| :: InPlan(w, log[i].write)
  }

  lemma {:induction false} CallIsPlanned(w: Work, logs: seq<seq<Event>>, n: nat)
    requires Executes(logs, w.Plan()) && n <= |logs|
    ensures Planned(w, Flatten(logs[..n]))
  {
    if n > 0 {
      CallIsPlanned(w, logs, n - 1);
      assert logs[..n][..n - 1] == logs[..n - 1];
      assert Attempts(logs[n - 1], w.Batch(n - 1));
      assert Planned(w, logs[n - 1]);
    } else {
      assert Flatten(logs[..0]) == [];
    }
  }

  /** A call stores nothing beyond what was stored and what it computes. */
  lemma {:induction false} NothingElseAppears(w: Work, c: Stored, log: seq<Event>, nm: Names, key: Key)
    requires w.Legal(nm) && Planned(w, log) && key in Replay(c, log)
    ensures key in c || MayPut(w, key)
  {
    if log != [] {
      var init, last := log[..|log| - 1], log[|log| - 1];
      assert forall i | 0 <= i < |init| :: init[i] == log[i];
      if key in Replay(c, init) {
        NothingElseAppears(w, c, init, nm, key);
      } else {
        assert InPlan(w, last.write);
        var k: nat :| k < |w.Plan()| && last.write in w.Batch(k);
        PlannedPut(w, k, last.write, nm);
      }
    }
  }

  /** A call leaves alone what none of its writes is directed at. */
  lemma {:induction false} UntouchedStays(w: Work, c: Stored, log: seq<Event>, key: Key)
    requires Planned(w, log) && !Touches(w, key)
    ensures key in Replay(c, log) <==> key in c
    ensures key in c ==> Replay(c, log)[key] == c[key]
  {
    if log != [] {
      var init, last := log[..|log| - 1], log[|log| - 1];
      assert forall i | 0 <= i < |init| :: init[i] == log[i];
      UntouchedStays(w, c, init, key);
      assert InPlan(w, last.write);
      assert last.write.Target() != key;
    }
  }

  /** Nothing is stored but what the adapter remembers and what it is about to store. */
  ghost predicate NoOrphans(c: Stored, prev: Option<Computed>, next: Option<Computed>) {
    forall key: Key | key in c ::
      || (prev.Some? && key.name in IndexOf(prev.value, key.kind))
      || (next.Some? && key.name in IndexOf(next.value, key.kind))
  }

  lemma {:induction false} PlannedTarget(w: Work, v: Write, nm: Names)
    requires w.Legal(nm) && InPlan(w, v)
    ensures var key := v.Target();
            || MayPut(w, key)
            || (key.name in IndexOf(w.prev, key.kind) && (key.kind.IngressKind? ==> w.ClearWork?))
  {
    var k: nat :| k < |w.Plan()| && v in w.Batch(k);
    if v.Put? {
      PlannedPut(w, k, v, nm);
    }
  }

  lemma {:induction false} OrphanIsUntouched(g: Gateway, w: Work, key: Key, nm: Names)
    requires Inv(g, nm) && w.Legal(nm) && w.prev == Remembered(g) && (w.ClearWork? ==> g.synced.Some?)
    requires g.synced.Some? ==> key.name !in IndexOf(g.synced.value, key.kind)
    requires w.SyncWork? ==> key.name !in IndexOf(w.next, key.kind)
    ensures !Touches(w, key)
  {
    if Touches(w, key) {
      var v: Write :| InPlan(w, v) && v.Target() == key;
      PlannedTarget(w, v, nm);
    }
  }

  lemma {:induction false} LeftoverWasStored(g: Gateway, e: Computed, logs: seq<seq<Event>>, nm: Names, key: Key)
    requires Inv(g, nm) && ComputedFor(e, nm) && Completes(logs, SyncPlan(Remembered(g), e))
    requires key in Replay(g.stored, Flatten(logs)) && key.name !in IndexOf(e, key.kind)
    ensures key in g.stored
  {
    var w := SyncWork(Remembered(g), e);
    assert logs[..|logs|] == logs;
    CallIsPlanned(w, logs, |logs|);
    NothingElseAppears(w, g.stored, Flatten(logs), nm, key);
  }

  lemma {:induction false} LeftoverIsForgotten(c: Stored, prev: Computed, e: Computed, nm: Names, key: Key)
    requires SyncPhase(7, c, prev, e, nm) && key in c && key.name !in IndexOf(e, key.kind)
    requires prev.ingress.name == nm.service && e.ingress.name == nm.service
    ensures key.name !in IndexOf(prev, key.kind)
  {
    if key.name in IndexOf(prev, key.kind) && !key.kind.IngressKind? {
      RemovedAt(c, prev, e, nm, key);
    }
  }

  /** Once all writes of a Sync went through, what the computed set does not name was an orphan before. */
  lemma {:induction false} LeftoverWasOrphan(g: Gateway, e: Computed, logs: seq<seq<Event>>, nm: Names, key: Key)
    requires Inv(g, nm) && ComputedFor(e, nm) && Completes(logs, SyncPlan(Remembered(g), e))
    requires key in Replay(g.stored, Flatten(logs)) && key.name !in IndexOf(e, key.kind)
    ensures key in g.stored && (g.synced.Some? ==> key.name !in IndexOf(g.synced.value, key.kind))
  {
    LeftoverWasStored(g, e, logs, nm, key);
    if g.synced.Some? {
      CompletedCall(SyncWork(Remembered(g), e), g.stored, nm, logs);
      LeftoverIsForgotten(Replay(g.stored, Flatten(logs)), g.synced.value, e, nm, key);
    }
  }

  lemma {:induction false} RemovedAt(c: Stored, prev: Computed, e: Computed, nm: Names, key: Key)
    requires SyncPhase(7, c, prev, e, nm) && !key.kind.IngressKind?
    requires key.name in IndexOf(prev, key.kind) && key.name !in IndexOf(e, key.kind)
    ensures key !in c
  {
    assert key.name in Missing(IndexOf(e, key.kind), IndexOf(prev, key.kind));
    assert key == Key(key.kind, key.name);
  }

  lemma {:induction false} HeldAt(c: Stored, prev: Computed, e: Computed, nm: Names, key: Key)
    requires SyncPhase(7, c, prev, e, nm) && e.ingress.name == nm.service && key.name in IndexOf(e, key.kind)
    ensures key in c && c[key] == IndexOf(e, key.kind)[key.name]
  {
    assert key == Key(key.kind, key.name);
  }

  lemma {:induction false} ClearedAt(c: Stored, prev: Computed, nm: Names, key: Key)
    requires ClearPhase(4, c, prev, nm) && prev.ingress.name == nm.service && key.name in IndexOf(prev, key.kind)
    ensures key !in c
  {
    assert key == Key(key.kind, key.name);
  }

  lemma {:induction false} CompletedSyncHoldsAll(g: Gateway, e: Computed, logs: seq<seq<Event>>, nm: Names, key: Key)
    requires Inv(g, nm) && ComputedFor(e, nm) && Completes(logs, SyncPlan(Remembered(g), e))
    requires key.name in IndexOf(e, key.kind)
    ensures var c := Replay(g.stored, Flatten(logs)); key in c && c[key] == IndexOf(e, key.kind)[key.name]
  {
    CompletedCall(SyncWork(Remembered(g), e), g.stored, nm, logs);
    HeldAt(Replay(g.stored, Flatten(logs)), Remembered(g), e, nm, key);
  }

  /**
   * A Sync whose writes all succeed leaves exactly the computed entries if and only if, before it,
   * nothing was stored that neither the adapter remembered nor the Sync computes.
   */
  lemma {:induction false} SyncIsExactIffNoOrphans(g: Gateway, e: Computed, logs: seq<seq<Event>>, nm: Names)
    requires Inv(g, nm) && ComputedFor(e, nm) && Completes(logs, SyncPlan(Remembered(g), e))
    ensures Exact(Replay(g.stored, Flatten(logs)), e) <==> NoOrphans(g.stored, g.synced, Some(e))
  {
    var w, c' := SyncWork(Remembered(g), e), Replay(g.stored, Flatten(logs));
    assert logs[..|logs|] == logs;
    CallIsPlanned(w, logs, |logs|);
    if NoOrphans(g.stored, g.synced, Some(e)) {
      forall key: Key
        ensures key in c' <==> key.name in IndexOf(e, key.kind)
        ensures key in c' ==> c'[key] == IndexOf(e, key.kind)[key.name]
      {
        if key.name in IndexOf(e, key.kind) {
          CompletedSyncHoldsAll(g, e, logs, nm, key);
        } else if key in c' {
          LeftoverWasOrphan(g, e, logs, nm, key);
        }
      }
    } else {
      var key: Key :| key in g.stored && key.name !in IndexOf(e, key.kind) &&
                      (g.synced.Some? ==> key.name !in IndexOf(g.synced.value, key.kind));
      OrphanIsUntouched(g, w, key, nm);
      UntouchedStays(w, g.stored, Flatten(logs), key);
    }
  }

  lemma {:induction false} CompletedClearIsExactIff(g: Gateway, logs: seq<seq<Event>>, nm: Names)
    requires Inv(g, nm) && g.synced.Some? && Completes(logs, ClearPlan(g.synced.value))
    ensures Replay(g.stored, Flatten(logs)) == map[] <==> NoOrphans(g.stored, g.synced, None)
  {
    var w, c' := ClearWork(g.synced.value), Replay(g.stored, Flatten(logs));
    assert logs[..|logs|] == logs;
    CallIsPlanned(w, logs, |logs|);
    if NoOrphans(g.stored, g.synced, None) {
      CompletedCall(w, g.stored, nm, logs);
      forall key: Key
        ensures key !in c'
      {
        if key in c' {
          NothingElseAppears(w, g.stored, Flatten(logs), nm, key);
          ClearedAt(c', g.synced.value, nm, key);
        }
      }
    } else {
      var key: Key :| key in g.stored && key.name !in IndexOf(g.synced.value, key.kind);
      OrphanIsUntouched(g, w, key, nm);
      UntouchedStays(w, g.stored, Flatten(logs), key);
    }
  }

  /**
   * A Clear that succeeds leaves nothing if and only if nothing was stored that the adapter does not
   * remember. In particular a gateway the adapter does not remember at all keeps whatever is stored.
   */
  lemma {:induction false} ClearIsExactIffNoOrphans(g: Gateway, call: Call, nm: Names)
    requires Inv(g, nm) && call.Clear? && Possible(g, call, nm) && Succeeds(g, call)
    ensures Step(g, call).stored == map[] <==> NoOrphans(g.stored, g.synced, None)
  {
    if g.synced.Some? {
      CompletedClearIsExactIff(g, call.logs, nm);
    } else {
      assert Step(g, call).stored == g.stored;
    }
  }

  // ----- Failure-free runs, and retries ------------------------------------------------------------------------------

  lemma {:induction false} SuccessKeepsInStep(g: Gateway, call: Call, nm: Names)
    requires Inv(g, nm) && InStep(g) && Possible(g, call, nm) && Succeeds(g, call)
    ensures InStep(Step(g, call))
  {
    if call.Sync? {
      SyncIsExactIffNoOrphans(g, call.next, call.logs, nm);
    } else {
      ClearIsExactIffNoOrphans(g, call, nm);
    }
  }

  /** Every call of the run succeeds. */
  ghost predicate AllSucceed(g: Gateway, calls: seq<Call>)
    decreases |calls|
  {
    calls == [] || (Succeeds(g, calls[0]) && AllSucceed(Step(g, calls[0]), calls[1..]))
  }

  lemma {:induction false} RunStaysInStep(g: Gateway, calls: seq<Call>, g': Gateway, nm: Names)
    requires Inv(g, nm) && InStep(g) && Run(g, calls, g', nm) && AllSucceed(g, calls)
    ensures InStep(g')
    decreases |calls|
  {
    if calls != [] {
      StepKeepsInv(g, calls[0], nm);
      SuccessKeepsInStep(g, calls[0], nm);
      RunStaysInStep(Step(g, calls[0]), calls[1..], g', nm);
    }
  }

  /** After any failure-free run Consul holds exactly what was last computed, or nothing after a Clear. */
  lemma {:induction false} FailureFreeRunsAreExact(calls: seq<Call>, g: Gateway, nm: Names)
    requires Run(INITIAL, calls, g, nm) && AllSucceed(INITIAL, calls)
    ensures InStep(g)
  {
    InitialInv(nm);
    RunStaysInStep(INITIAL, calls, g, nm);
  }

  /** A Sync of e, whatever fails, leaves only entries that were remembered or belong to e. */
  lemma {:induction false} SyncKeepsNoOrphans(g: Gateway, e: Computed, call: Call, nm: Names)
    requires Inv(g, nm) && NoOrphans(g.stored, g.synced, Some(e))
    requires call.Sync? && call.next == e && Possible(g, call, nm)
    ensures var g' := Step(g, call); NoOrphans(g'.stored, g'.synced, Some(e))
  {
    var w := WorkOf(g, call);
    if Succeeds(g, call) {
      SyncIsExactIffNoOrphans(g, e, call.logs, nm);
    } else {
      assert call.logs[..|call.logs|] == call.logs;
      CallIsPlanned(w, call.logs, |call.logs|);
      forall key: Key | key in Replay(g.stored, Flatten(call.logs))
        ensures key in g.stored || key.name in IndexOf(e, key.kind)
      {
        NothingElseAppears(w, g.stored, Flatten(call.logs), nm, key);
      }
    }
  }

  lemma {:induction false} RetriesLeaveNoOrphans(g: Gateway, e: Computed, calls: seq<Call>, g': Gateway, nm: Names)
    requires Inv(g, nm) && NoOrphans(g.stored, g.synced, Some(e)) && Run(g, calls, g', nm)
    requires forall i | 0 <= i < |calls| :: calls[i].Sync? && calls[i].next == e
    ensures Inv(g', nm) && NoOrphans(g'.stored, g'.synced, Some(e))
    decreases |calls|
  {
    if calls != [] {
      StepKeepsInv(g, calls[0], nm);
      SyncKeepsNoOrphans(g, e, calls[0], nm);
      RetriesLeaveNoOrphans(Step(g, calls[0]), e, calls[1..], g', nm);
    }
  }

  /**
   * From an exact state, any number of Syncs of one gateway, failing in any way, followed by one that
   * succeeds, is exact again.
   */
  lemma {:induction false} RetriesConverge(g: Gateway, e: Computed, calls: seq<Call>, g': Gateway, last: Call,
                                           nm: Names)
    requires Inv(g, nm) && InStep(g) && Run(g, calls, g', nm)
    requires forall i | 0 <= i < |calls| :: calls[i].Sync? && calls[i].next == e
    requires last.Sync? && last.next == e && Possible(g', last, nm) && Succeeds(g', last)
    ensures Step(g', last).synced == Some(e) && Exact(Step(g', last).stored, e)
  {
    assert NoOrphans(g.stored, g.synced, Some(e));
    RetriesLeaveNoOrphans(g, e, calls, g', nm);
    SyncIsExactIffNoOrphans(g', e, last.logs, nm);
  }

  /** A Clear, whatever fails, leaves only entries that are still remembered. */
  lemma {:induction false} ClearKeepsNoOrphans(g: Gateway, call: Call, nm: Names)
    requires Inv(g, nm) && NoOrphans(g.stored, g.synced, None) && call.Clear? && Possible(g, call, nm)
    ensures var g' := Step(g, call); NoOrphans(g'.stored, g'.synced, None)
  {
    if Succeeds(g, call) {
      ClearIsExactIffNoOrphans(g, call, nm);
    } else {
      var w := WorkOf(g, call);
      assert call.logs[..|call.logs|] == call.logs;
      CallIsPlanned(w, call.logs, |call.logs|);
      forall key: Key | key in Replay(g.stored, Flatten(call.logs))
        ensures key in g.stored
      {
        NothingElseAppears(w, g.stored, Flatten(call.logs), nm, key);
      }
    }
  }

  lemma {:induction false} ClearsLeaveNoOrphans(g: Gateway, calls: seq<Call>, g': Gateway, nm: Names)
    requires Inv(g, nm) && NoOrphans(g.stored, g.synced, None) && Run(g, calls, g', nm)
    requires forall i | 0 <= i < |calls| :: calls[i].Clear?
    ensures Inv(g', nm) && NoOrphans(g'.stored, g'.synced, None)
    decreases |calls|
  {
    if calls != [] {
      StepKeepsInv(g, calls[0], nm);
      ClearKeepsNoOrphans(g, calls[0], nm);
      ClearsLeaveNoOrphans(Step(g, calls[0]), calls[1..], g', nm);
    }
  }

  /** From an exact state, any number of Clears, failing in any way, followed by one that succeeds, leaves nothing. */
  lemma {:induction false} ClearRetriesConverge(g: Gateway, calls: seq<Call>, g': Gateway, last: Call, nm: Names)
    requires Inv(g, nm) && InStep(g) && Run(g, calls, g', nm)
    requires forall i | 0 <= i < |calls| :: calls[i].Clear?
    requires last.Clear? && Possible(g', last, nm) && Succeeds(g', last)
    ensures Step(g', last) == Gateway(map[], None)
  {
    assert NoOrphans(g.stored, g.synced, None);
    ClearsLeaveNoOrphans(g, calls, g', nm);
    ClearIsExactIffNoOrphans(g', last, nm);
  }

  // ----- Abandoned Syncs leave orphans -------------------------------------------------------------------------------

  /** A Sync of one fails after its defaults were written, then a Sync of none, without entries, succeeds: they stay. */
  lemma {:induction false} AbandonedSyncLeavesOrphan(nm: Names, n: string, one: Computed, d: ConfigEntry,
                                                     none: Computed)
    returns (calls: seq<Call>, g: Gateway)
    requires ComputedFor(one, nm) && one.defaults == map[n := d] && KeyOf(d) == Key(DefaultsKind, n)
    requires ComputedFor(none, nm) && none == Computed(none.ingress, map[], map[], map[])
    ensures Run(INITIAL, calls, g, nm) && |calls| == 2 && calls[0].Sync? && calls[0].next == one && calls[1].Sync?
    ensures g.synced == Some(none) && Key(DefaultsKind, n) in g.stored && !InStep(g)
  {
    var failed := Sync(one, [[Event(Put(d), AppliedButFailed)]]);
    var ok := Sync(none, [[], [], [], [Event(Put(IngressEntry(none.ingress)), Ok)], [], [], []]);
    FailsAfterDefaults(nm, n, one, d, failed);
    var before := Step(INITIAL, failed);
    EmptySyncCompletes(none.ingress, ok.logs);
    assert Possible(before, ok, nm) && Succeeds(before, ok);
    calls, g := [failed, ok], Step(before, ok);
    InitialInv(nm);
    StepKeepsInv(INITIAL, failed, nm);
    var w := SyncWork(NOTHING, none);
    assert ok.logs[..|ok.logs|] == ok.logs;
    CallIsPlanned(w, ok.logs, |ok.logs|);
    OrphanIsUntouched(before, w, Key(DefaultsKind, n), nm);
    UntouchedStays(w, before.stored, Flatten(ok.logs), Key(DefaultsKind, n));
    SyncIsExactIffNoOrphans(before, none, ok.logs, nm);
    assert Run(g, [], g, nm) && [failed, ok][1..] == [ok] && [ok][1..] == [];
  }

  /** A first Sync fails after its defaults were written, then the gateway is cleared, successfully: they stay. */
  lemma {:induction false} ClearAfterFailedSyncLeavesOrphan(nm: Names, n: string, one: Computed, d: ConfigEntry)
    returns (calls: seq<Call>, g: Gateway)
    requires ComputedFor(one, nm) && one.defaults == map[n := d] && KeyOf(d) == Key(DefaultsKind, n)
    ensures Run(INITIAL, calls, g, nm) && |calls| == 2 && calls[0].Sync? && calls[0].next == one && calls[1].Clear?
    ensures Succeeds(Step(INITIAL, calls[0]), calls[1])
    ensures g.synced == None && Key(DefaultsKind, n) in g.stored && !InStep(g)
  {
    var failed, clear := Sync(one, [[Event(Put(d), AppliedButFailed)]]), Clear([]);
    FailsAfterDefaults(nm, n, one, d, failed);
    var before := Step(INITIAL, failed);
    calls, g := [failed, clear], Step(before, clear);
    assert g.stored == before.stored;
    assert Run(g, [], g, nm) && [failed, clear][1..] == [clear] && [clear][1..] == [];
  }

  lemma {:induction false} FailsAfterDefaults(nm: Names, n: string, one: Computed, d: ConfigEntry, failed: Call)
    requires ComputedFor(one, nm) && one.defaults == map[n := d] && KeyOf(d) == Key(DefaultsKind, n)
    requires failed == Sync(one, [[Event(Put(d), AppliedButFailed)]])
    ensures Possible(INITIAL, failed, nm)
    ensures Key(DefaultsKind, n) in Step(INITIAL, failed).stored && Step(INITIAL, failed).synced == None
  {
    assert failed.logs[0][0].write == Put(d) && Put(one.defaults[n]) in Puts(one.defaults);
    assert Attempts(failed.logs[0], SyncBatch(NOTHING, one, 0));
    OneWriteStored(d);
  }

  lemma {:induction false} FlattenOne(log: seq<Event>)
    ensures Flatten([log]) == log
  {
    assert [log][..0] == [];
    assert Flatten([]) + log == log;
  }

  lemma {:induction false} ReplayOne(c: Stored, event: Event)
    ensures Replay(c, [event]) == After(c, event)
  {
    assert [event][..0] == [];
  }

  lemma {:induction false} OneWriteStored(d: ConfigEntry)
    ensures var logs := [[Event(Put(d), AppliedButFailed)]]; KeyOf(d) in Replay(map[], Flatten(logs)) && !AllOk(logs[0])
  {
    var event := Event(Put(d), AppliedButFailed);
    FlattenOne([event]);
    ReplayOne(map[], event);
    assert [event][0] == event;
  }

  lemma {:induction false} EmptySyncCompletes(ingress: IngressGateway, logs: seq<seq<Event>>)
    requires logs == [[], [], [], [Event(Put(IngressEntry(ingress)), Ok)], [], [], []]
    ensures Completes(logs, SyncPlan(NOTHING, Computed(ingress, map[], map[], map[])))
  {
    var e := Computed(ingress, map[], map[], map[]);
    forall k | 0 <= k < 7
      ensures Attempts(logs[k], SyncBatch(NOTHING, e, k)) && AllOk(logs[k])
    {
      if k == 3 {
        assert logs[3][0].write == Put(IngressEntry(ingress));
      } else {
        assert logs[k] == [];
      }
    }
  }
}
