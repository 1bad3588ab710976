// The adapter object (internal/adapters/consul/sync.go): it computes the entries of a gateway, pushes
// them batch by batch, and remembers them once everything went through.

module SyncAdapter {
  import opened Wrappers
  import opened Core
  import opened ConsulEntries
  import opened ConfigEntries
  import opened HttpCompile
  import opened Naming
  import opened ChainSpec
  import opened DC = DiscoveryChain
  import Gateways
  import S = SyncSpec
  import R = SyncRuns

  // ----- Consul -------------------------------------------------------------------------------------------

  function StoredFor(stored: map<GatewayID, S.Stored>, id: GatewayID): S.Stored {
    if id in stored then stored[id] else map[]
  }

  /** Consul's config entries, per gateway: the entry names of different gateways are disjoint. */
  class Consul {
    var stored: map<GatewayID, S.Stored>

    constructor ()
      ensures stored == map[]
    {
      stored := map[];
    }

    /** Any write may fail, with or without having taken effect. */
    method Write(id: GatewayID, w: S.Write) returns (err: bool, ghost event: S.Event)
      modifies this
      ensures event.write == w && (err <==> !event.outcome.Ok?)
      ensures stored == old(stored)[id := S.After(StoredFor(old(stored), id), event)]
    {
      var outcome: S.WriteOutcome := *;
      event, err := S.Event(w, outcome), !outcome.Ok?;
      var before := StoredFor(stored, id);
      stored := stored[id := if outcome.Lost? then before else S.Applied(before, w)];
    }
  }

  // ----- Batches --------------------------------------------------------------------------------------------

  function WriteOf(e: ConfigEntry, put: bool): S.Write {
    if put then S.Put(e) else S.Remove(S.KeyOf(e))
  }

  /** setConfigEntries and deleteConfigEntries: all entries are attempted even when some fail. */
  method WriteEntries(consul: Consul, id: GatewayID, entries: seq<ConfigEntry>, put: bool)
    returns (err: bool, ghost log: seq<S.Event>)
    modifies consul
    ensures |log| == |entries| && forall i | 0 <= i < |log| :: log[i].write == WriteOf(entries[i], put)
    ensures err <==> !S.AllOk(log)
    ensures StoredFor(consul.stored, id) == S.Replay(StoredFor(old(consul.stored), id), log)
    ensures OthersUnchanged(old(consul.stored), consul.stored, id)
  {
    err, log := false, [];
    for i := 0 to |entries|
      invariant |log| == i && forall k | 0 <= k < i :: log[k].write == WriteOf(entries[k], put)
      invariant err <==> !S.AllOk(log)
      invariant StoredFor(consul.stored, id) == S.Replay(StoredFor(old(consul.stored), id), log)
      invariant OthersUnchanged(old(consul.stored), consul.stored, id)
    {
      var failed, event := consul.Write(id, WriteOf(entries[i], put));
      ghost var before := log;
      log := log + [event];
      assert log[..i] == before;
      err := err || failed;
      assert S.AllOk(log) <==> S.AllOk(before) && event.outcome.Ok? by {
        assert forall k | 0 <= k < i :: log[k] == before[k];
        assert log[i] == event;
      }
    }
  }

  /** Writing the entries is exactly the batch. */
  ghost predicate Covers(entries: seq<ConfigEntry>, put: bool, batch: iset<S.Write>) {
    && (forall i | 0 <= i < |entries| :: WriteOf(entries[i], put) in batch)
    && (forall w | w in batch :: exists i | 0 <= i < |entries| :: WriteOf(entries[i], put) == w)
  }

  lemma {:induction false} CoversPuts(entries: seq<ConfigEntry>, idx: Index)
    requires Gateways.Enumerates(entries, idx)
    ensures Covers(entries, true, S.Puts(idx))
  {
    var order: seq<string> :| Gateways.EnumeratesIn(entries, idx, order);
    forall w | w in S.Puts(idx)
      ensures exists i | 0 <= i < |entries| :: WriteOf(entries[i], true) == w
    {
      var n :| n in idx && w == S.Put(idx[n]);
      assert n in order;
      var i :| 0 <= i < |order| && order[i] == n;
      assert WriteOf(entries[i], true) == w;
    }
  }

  lemma {:induction false} CoversRemoves(entries: seq<ConfigEntry>, idx: Index, kind: Kind)
    requires Indexed(idx, kind) && Gateways.Enumerates(entries, idx)
    ensures Covers(entries, false, S.Removes(idx, kind))
  {
    var order: seq<string> :| Gateways.EnumeratesIn(entries, idx, order);
    forall i | 0 <= i < |entries|
      ensures WriteOf(entries[i], false) == S.Remove(S.Key(kind, order[i]))
    {
      assert entries[i] == idx[order[i]];
    }
    forall w | w in S.Removes(idx, kind)
      ensures exists i | 0 <= i < |entries| :: WriteOf(entries[i], false) == w
    {
      var n :| n in idx && w == S.Remove(S.Key(kind, n));
      assert n in order;
      var i :| 0 <= i < |order| && order[i] == n;
      assert WriteOf(entries[i], false) == w;
    }
  }

  /** The batches logged so far are those of the plan, and none of their writes failed. */
  ghost predicate Progress(logs: seq<seq<S.Event>>, plan: S.Plan) {
    && |logs| <= |plan|
    && forall k | 0 <= k < |logs| :: S.Attempts(logs[k], plan[k]) && S.AllOk(logs[k])
  }

  lemma {:induction false} BatchLogged(logs: seq<seq<S.Event>>, plan: S.Plan, log: seq<S.Event>, base: S.Stored)
    requires Progress(logs, plan) && |logs| < |plan| && S.Attempts(log, plan[|logs|])
    ensures S.AllOk(log) ==> Progress(logs + [log], plan)
    ensures !S.AllOk(log) ==> S.Executes(logs + [log], plan) && !S.Completes(logs + [log], plan)
    ensures S.Replay(base, S.Flatten(logs + [log])) == S.Replay(S.Replay(base, S.Flatten(logs)), log)
  {
    assert (logs + [log])[..|logs|] == logs;
    R.ReplayConcat(base, S.Flatten(logs), log);
  }

  // ----- The adapter ------------------------------------------------------------------------------------------

  /** e is a result of discoveryChain for g. */
  ghost predicate ComputedBy(e: Computed, g: ResolvedGateway, crc: string -> nat) {
    exists list: seq<ResolvedRoute>, origins: seq<Origin>, from: seq<nat> :: ComputedAs(e, g, crc, list, origins, from)
  }

  ghost predicate ComputedAs(e: Computed, g: ResolvedGateway, crc: string -> nat,
                             list: seq<ResolvedRoute>, origins: seq<Origin>, from: seq<nat>) {
    && Chain(list, origins, g, crc) && Consistent(e)
    && e.routers == RouterIndex(list) && e.splitters == SplitterIndex(list) && e.defaults == DefaultsIndex(list)
    && e.ingress.name == g.id.service && e.ingress.namespace == g.id.consulNamespace && e.ingress.meta == g.meta
    && e.ingress.maxConnections == g.maxConnections
    && ListenersOf(e.ingress.listeners, g, crc, |g.listeners|, from)
  }

  lemma {:induction false} RouterIsNotVirtual(list: seq<ResolvedRoute>, origins: seq<Origin>, g: ResolvedGateway,
                                              crc: string -> nat, n: string)
    requires Chain(list, origins, g, crc) && n in RouterIndex(list)
    ensures !S.Virtual(S.Names(g.id.service, crc), n)
  {
    var nm := S.Names(g.id.service, crc);
    RouterKeyIsName(list, n);
    var k: nat :| k < |list| && list[k].name == n;
    forall host: string, i: nat
      ensures n != VirtualName(RouterName(nm.service, nm.crc, host), i)
    {
      RouterIsNeverVirtual(nm.service, nm.crc, origins[k].host, host, i);
    }
  }

  lemma {:induction false} SplitterIsVirtual(list: seq<ResolvedRoute>, origins: seq<Origin>, g: ResolvedGateway,
                                             crc: string -> nat, n: string)
    requires Chain(list, origins, g, crc) && n in SplitterIndex(list)
    ensures S.Virtual(S.Names(g.id.service, crc), n)
  {
    SplitterKeyIsVirtual(list, n);
    var k: nat, i: nat :| k < |list| && n == VirtualName(list[k].name, i);
    assert n == VirtualName(RouterName(g.id.service, crc, origins[k].host), i);
  }

  lemma {:induction false} ComputedHasItsNames(e: Computed, g: ResolvedGateway, crc: string -> nat)
    requires ComputedBy(e, g, crc)
    ensures S.ComputedFor(e, S.Names(g.id.service, crc))
  {
    var list: seq<ResolvedRoute>, origins: seq<Origin>, from: seq<nat> :| ComputedAs(e, g, crc, list, origins, from);
    forall n | n in e.routers
      ensures !S.Virtual(S.Names(g.id.service, crc), n)
    {
      RouterIsNotVirtual(list, origins, g, crc, n);
    }
    forall n | n in e.splitters
      ensures S.Virtual(S.Names(g.id.service, crc), n)
    {
      SplitterIsVirtual(list, origins, g, crc, n);
    }
  }

  class Adapter {
    const crc: string -> nat
    const consul: Consul
    var sync: map<GatewayID, Computed>

    ghost function State(id: GatewayID): R.Gateway
      reads this, consul
    {
      R.Gateway(StoredFor(consul.stored, id), if id in sync then Some(sync[id]) else None)
    }

    ghost predicate Valid()
      reads this, consul
    {
      forall id: GatewayID :: R.Inv(State(id), S.Names(id.service, crc))
    }

    constructor (crc: string -> nat)
      ensures Valid() && fresh(consul) && this.crc == crc
      ensures forall id: GatewayID :: State(id) == R.INITIAL
    {
      this.crc := crc;
      consul := new Consul();
      sync := map[];
    }

    /** Pushes one batch of the plan. */
    method Push(id: GatewayID, entries: seq<ConfigEntry>, put: bool, ghost base: S.Stored,
                ghost plan: S.Plan, ghost logs: seq<seq<S.Event>>)
      returns (err: bool, ghost logs': seq<seq<S.Event>>)
      requires Progress(logs, plan) && |logs| < |plan| && Covers(entries, put, plan[|logs|])
      requires StoredFor(consul.stored, id) == S.Replay(base, S.Flatten(logs))
      modifies consul
      ensures StoredFor(consul.stored, id) == S.Replay(base, S.Flatten(logs'))
      ensures OthersUnchanged(old(consul.stored), consul.stored, id)
      ensures !err ==> Progress(logs', plan) && |logs'| == |logs| + 1
      ensures err ==> S.Executes(logs', plan) && !S.Completes(logs', plan)
    {
      ghost var log;
      err, log := WriteEntries(consul, id, entries, put);
      assert S.Attempts(log, plan[|logs|]) by {
        forall w | w in plan[|logs|]
          ensures exists i | 0 <= i < |log| :: log[i].write == w
        {
          var i :| 0 <= i < |entries| && WriteOf(entries[i], put) == w;
          assert log[i].write == w;
        }
      }
      BatchLogged(logs, plan, log, base);
      logs' := logs + [log];
    }

    /** The first four batches of a Sync: what is computed, defaults first and the ingress last. */
    method PushAdded(id: GatewayID, existing: Computed, e: Computed) returns (err: bool, ghost logs: seq<seq<S.Event>>)
      modifies consul
      ensures StoredFor(consul.stored, id) == S.Replay(StoredFor(old(consul.stored), id), S.Flatten(logs))
      ensures OthersUnchanged(old(consul.stored), consul.stored, id)
      ensures !err ==> Progress(logs, S.SyncPlan(existing, e)) && |logs| == 4
      ensures err ==> S.Executes(logs, S.SyncPlan(existing, e)) && !S.Completes(logs, S.SyncPlan(existing, e))
    {
      ghost var plan, base := S.SyncPlan(existing, e), StoredFor(consul.stored, id);
      var defaults := Gateways.MapValues(e.defaults);
      var routers := Gateways.MapValues(e.routers);
      var splitters := Gateways.MapValues(e.splitters);
      CoversPuts(defaults, e.defaults);
      CoversPuts(routers, e.routers);
      CoversPuts(splitters, e.splitters);
      logs := [];
      err, logs := Push(id, defaults, true, base, plan, logs);
      if err { return; }
      err, logs := Push(id, routers, true, base, plan, logs);
      if err { return; }
      err, logs := Push(id, splitters, true, base, plan, logs);
      if err { return; }
      assert WriteOf([IngressEntry(e.ingress)][0], true) == S.Put(IngressEntry(e.ingress));
      err, logs := Push(id, [IngressEntry(e.ingress)], true, base, plan, logs);
    }

    /** The last three batches of a Sync: what is no longer computed, defaults last. */
    method PushRemoved(id: GatewayID, existing: Computed, e: Computed, ghost base: S.Stored,
                       ghost logs: seq<seq<S.Event>>)
      returns (err: bool, ghost logs': seq<seq<S.Event>>)
      requires Kinds(existing) && Kinds(e) && Progress(logs, S.SyncPlan(existing, e)) && |logs| == 4
      requires StoredFor(consul.stored, id) == S.Replay(base, S.Flatten(logs))
      modifies consul
      ensures StoredFor(consul.stored, id) == S.Replay(base, S.Flatten(logs'))
      ensures OthersUnchanged(old(consul.stored), consul.stored, id)
      ensures S.Executes(logs', S.SyncPlan(existing, e)) && (err <==> !S.Completes(logs', S.SyncPlan(existing, e)))
    {
      ghost var plan := S.SyncPlan(existing, e);
      var routers := RemovedEntries(RouterKind, e.routers, existing.routers);
      var splitters := RemovedEntries(SplitterKind, e.splitters, existing.splitters);
      var defaults := RemovedEntries(DefaultsKind, e.defaults, existing.defaults);
      err, logs' := Push(id, routers, false, base, plan, logs);
      if err { return; }
      err, logs' := Push(id, splitters, false, base, plan, logs');
      if err { return; }
      err, logs' := Push(id, defaults, false, base, plan, logs');
    }

    method PushSync(id: GatewayID, existing: Computed, e: Computed) returns (err: bool, ghost logs: seq<seq<S.Event>>)
      requires Kinds(existing) && Kinds(e)
      modifies consul
      ensures StoredFor(consul.stored, id) == S.Replay(StoredFor(old(consul.stored), id), S.Flatten(logs))
      ensures OthersUnchanged(old(consul.stored), consul.stored, id)
      ensures S.Executes(logs, S.SyncPlan(existing, e)) && (err <==> !S.Completes(logs, S.SyncPlan(existing, e)))
    {
      ghost var base := StoredFor(consul.stored, id);
      err, logs := PushAdded(id, existing, e);
      if err { return; }
      err, logs := PushRemoved(id, existing, e, base, logs);
    }

    /** The four batches of a Clear. */
    method PushClear(id: GatewayID, existing: Computed) returns (err: bool, ghost logs: seq<seq<S.Event>>)
      requires Kinds(existing)
      modifies consul
      ensures StoredFor(consul.stored, id) == S.Replay(StoredFor(old(consul.stored), id), S.Flatten(logs))
      ensures OthersUnchanged(old(consul.stored), consul.stored, id)
      ensures S.Executes(logs, S.ClearPlan(existing)) && (err <==> !S.Completes(logs, S.ClearPlan(existing)))
    {
      ghost var plan, base := S.ClearPlan(existing), StoredFor(consul.stored, id);
      var routers := Gateways.MapValues(existing.routers);
      var splitters := Gateways.MapValues(existing.splitters);
      var defaults := Gateways.MapValues(existing.defaults);
      CoversRemoves(routers, existing.routers, RouterKind);
      CoversRemoves(splitters, existing.splitters, SplitterKind);
      CoversRemoves(defaults, existing.defaults, DefaultsKind);
      logs := [];
      assert WriteOf([IngressEntry(existing.ingress)][0], false) == S.Remove(S.Key(IngressKind, existing.ingress.name));
      err, logs := Push(id, [IngressEntry(existing.ingress)], false, base, plan, logs);
      if err { return; }
      err, logs := Push(id, routers, false, base, plan, logs);
      if err { return; }
      err, logs := Push(id, splitters, false, base, plan, logs);
      if err { return; }
      err, logs := Push(id, defaults, false, base, plan, logs);
    }

    function Existing(id: GatewayID): Computed
      reads this
    {
      if id in sync then sync[id] else S.NOTHING
    }

    /**
     * call is the Sync that took place, with its writes. A failing reconciliation of intentions makes
     * Sync fail after the entries are remembered.
     */
    method Sync(g: ResolvedGateway, reconciled: bool) returns (ok: bool, ghost call: R.Call)
      requires Valid()
      requires forall n | 0 <= n < |g.listeners| :: ListenerWeightsInRange(g.listeners[n])
      modifies this, consul
      ensures Valid()
      ensures call.Sync? && ComputedBy(call.next, g, crc)
      ensures R.Possible(old(State(g.id)), call, S.Names(g.id.service, crc))
      ensures State(g.id) == R.Step(old(State(g.id)), call)
      ensures forall other: GatewayID | other != g.id :: State(other) == old(State(other))
      ensures ok <==> R.Succeeds(old(State(g.id)), call) && reconciled
    {
      var e := Compute(g, crc);
      ComputedHasItsNames(e, g, crc);
      ghost var before := State(g.id);
      assert R.Inv(before, S.Names(g.id.service, crc));
      var err, logs := PushSync(g.id, Existing(g.id), e);
      call := R.Sync(e, logs);
      assert R.Possible(before, call, S.Names(g.id.service, crc));
      assert !err <==> R.Succeeds(before, call);
      R.StepKeepsInv(before, call, S.Names(g.id.service, crc));
      ok := !err && reconciled;
      if !err {
        sync := sync[g.id := e];
      }
    }

    method Clear(id: GatewayID) returns (ok: bool, ghost call: R.Call)
      requires Valid()
      modifies this, consul
      ensures Valid()
      ensures call.Clear? && R.Possible(old(State(id)), call, S.Names(id.service, crc))
      ensures State(id) == R.Step(old(State(id)), call)
      ensures forall other: GatewayID | other != id :: State(other) == old(State(other))
      ensures ok <==> R.Succeeds(old(State(id)), call)
    {
      ghost var before := State(id);
      assert R.Inv(before, S.Names(id.service, crc));
      if id !in sync {
        call := R.Clear([]);
        return true, call;
      }
      var err, logs := PushClear(id, sync[id]);
      call := R.Clear(logs);
      R.StepKeepsInv(before, call, S.Names(id.service, crc));
      ok := !err;
      if ok {
        sync := sync - {id};
      }
    }
  }

  ghost predicate Kinds(e: Computed) {
    Indexed(e.routers, RouterKind) && Indexed(e.splitters, SplitterKind) && Indexed(e.defaults, DefaultsKind)
  }

  method Compute(g: ResolvedGateway, crc: string -> nat) returns (e: Computed)
    requires forall n | 0 <= n < |g.listeners| :: ListenerWeightsInRange(g.listeners[n])
    ensures ComputedBy(e, g, crc)
  {
    var ingress, routers, splitters, defaults, list, origins, from := DC.DiscoveryChain(g, crc);
    e := Computed(ingress, routers.idx, splitters.idx, defaults.idx);
    assert ComputedAs(e, g, crc, list, origins, from);
  }

  ghost predicate OthersUnchanged(before: map<GatewayID, S.Stored>, after: map<GatewayID, S.Stored>, id: GatewayID) {
    forall other: GatewayID | other != id :: StoredFor(after, other) == StoredFor(before, other)
  }

  /** What the existing index has and the computed one has not, through the indexes' own Difference. */
  method RemovedEntries(kind: Kind, computed: Index, existing: Index) returns (entries: seq<ConfigEntry>)
    requires Indexed(computed, kind) && Indexed(existing, kind)
    ensures Covers(entries, false, S.Removes(Missing(computed, existing), kind))
  {
    var a := new ConfigEntryIndex(kind);
    a.idx := computed;
    var b := new ConfigEntryIndex(kind);
    b.idx := existing;
    var difference := a.Difference(b);
    entries := difference.ToArray();
    CoversRemoves(entries, difference.idx, kind);
  }
}
