// The intentions reconciler (internal/consul/intentions.go) and the iterations of its discovery chain
// watchers (internal/consul/disco_chain_watcher.go), proved against IntentionSpec and IntentionRuns.

module Intentions {
  import opened Wrappers
  import opened ServiceNames
  import opened IntentionSpec
  import opened IntentionRuns

  // ----- Consul -------------------------------------------------------------------------------------------

  datatype GetResult = Found(sources: seq<Source>, idx: nat) | NotFound | GetFailed

  datatype CasResult = CasDone | CasRefused | CasFailed

  /**
   * Consul's intentions; others may write between any two calls, and any call may fail. log is what Consul
   * sees of the gateway, in order: the world at each reading, and before and after each write that took effect.
   */
  class ConsulConfig {
    ghost const gw: Source
    var world: World
    ghost var log: seq<Event>

    constructor (ghost gw: Source, w: World)
      ensures this.gw == gw && world == w && log == []
    {
      this.gw := gw;
      world, log := w, [];
    }

    method Get(gateway: Source, k: ServiceName) returns (r: GetResult)
      requires gateway == gw
      modifies this
      ensures Foreign(old(world), world, gw)
      ensures r.Found? ==> k in world.entries && r == Found(world.entries[k].sources, world.entries[k].index)
      ensures r.NotFound? ==> k !in world.entries
      ensures log == old(log) + [Read(k, world)]
    {
      Interfere(gateway);
      log := log + [Read(k, world)];
      var fails: bool := *;
      r := if fails then GetFailed
           else if k in world.entries then Found(world.entries[k].sources, world.entries[k].index) else NotFound;
    }

    /** now is the moment at which Consul decides; a call that fails may have gone through. */
    method CAS(gateway: Source, k: ServiceName, sources: seq<Source>, idx: nat) returns (r: CasResult, ghost now: World)
      requires gateway == gw
      modifies this
      ensures Foreign(old(world), now, gw)
      ensures world == now || (Accepts(now, k, idx) && world == Stored(now, k, sources))
      ensures r.CasDone? ==> Accepts(now, k, idx) && world == Stored(now, k, sources)
      ensures r.CasRefused? ==> world == now
      ensures log == old(log) + if world == now then [] else [Wrote(k, now, world)]
    {
      Interfere(gateway);
      now := world;
      var fails: bool, reached: bool := *, *;
      var accepted := Accepts(world, k, idx);
      if accepted && (reached || !fails) {
        world := Stored(world, k, sources);
        log := log + [Wrote(k, now, world)];
      }
      r := if fails then CasFailed else if accepted then CasDone else CasRefused;
    }

    method Delete(gateway: Source, k: ServiceName) returns (err: bool, ghost now: World)
      requires gateway == gw
      modifies this
      ensures Foreign(old(world), now, gw)
      ensures world == now || world == Deleted(now, k)
      ensures !err ==> world == Deleted(now, k)
      ensures log == old(log) + if world == now then [] else [Wrote(k, now, world)]
    {
      Interfere(gateway);
      now := world;
      var reached: bool;
      err, reached := *, *;
      if (reached || !err) && k in world.entries {
        world := Deleted(world, k);
        log := log + [Wrote(k, now, world)];
      }
    }

    method Interfere(gateway: Source)
      requires gateway == gw
      modifies this`world
      ensures Foreign(old(world), world, gw)
    {
      var w: World := *;
      if Foreign(world, w, gateway) {
        world := w;
      }
    }
  }

  // ----- Updating one intention ------------------------------------------------------------------------------

  /** All changes are attempts to do the same at one key. */
  ghost predicate AllAt(changes: seq<Change>, k: ServiceName, add: bool) {
    forall i | 0 <= i < |changes| :: changes[i].key == k && changes[i].add == add
  }

  /** Grants are attempted at indexed targets only, revocations at condemned ones only. */
  ghost predicate Directed(changes: seq<Change>, refs: Refs, tombstones: set<ServiceName>) {
    forall i | 0 <= i < |changes| ::
      if changes[i].add then IntentionRuns.Indexed(refs, changes[i].key) else Condemned(tombstones, changes[i].key)
  }

  /** changes is all that happened to Consul from w to w': attempts at tracked targets, and others' writes. */
  ghost predicate Recorded(w: World, changes: seq<Change>, w': World, gw: Source, refs: Refs,
                           tombstones: set<ServiceName>) {
    History(w, changes, w', gw) && Directed(changes, refs, tombstones)
  }

  ghost function Proper(gw: Source, refs: Refs, tombstones: set<ServiceName>): (World, Change) -> bool {
    (w, c) => Accounted(w, c, gw) && if c.add then IntentionRuns.Indexed(refs, c.key) else Condemned(tombstones, c.key)
  }

  lemma {:induction false} ProperIsRecorded(w: World, changes: seq<Change>, w': World, gw: Source, refs: Refs,
                                            tombstones: set<ServiceName>)
    requires Linked(w, changes, w', Proper(gw, refs, tombstones))
    ensures Recorded(w, changes, w', gw, refs, tombstones)
  {
    forall i | 0 <= i < |changes|
      ensures AccountedFor(gw)(WorldAt(w, changes, i), changes[i])
      ensures if changes[i].add then IntentionRuns.Indexed(refs, changes[i].key)
              else Condemned(tombstones, changes[i].key)
    {
      assert Proper(gw, refs, tombstones)(WorldAt(w, changes, i), changes[i]);
    }
  }

  /** ok holds of every attempt to do what add says at a key that is among keys. */
  ghost predicate Permits(ok: (World, Change) -> bool, gw: Source, add: bool, keys: iset<ServiceName>) {
    forall w: World, c: Change {:trigger Accounted(w, c, gw)} ::
      Accounted(w, c, gw) && c.add == add && c.key in keys ==> ok(w, c)
  }

  lemma {:induction false} AccountedPermits(gw: Source, add: bool, k: ServiceName)
    ensures Permits(AccountedFor(gw), gw, add, iset{k})
  {}

  lemma {:induction false} Permitted(w: World, changes: seq<Change>, w': World, gw: Source, k: ServiceName, add: bool,
                                     ok: (World, Change) -> bool, keys: iset<ServiceName>)
    requires History(w, changes, w', gw) && AllAt(changes, k, add) && Permits(ok, gw, add, keys) && k in keys
    ensures Linked(w, changes, w', ok)
  {
    forall i | 0 <= i < |changes|
      ensures ok(WorldAt(w, changes, i), changes[i])
    {
      assert AccountedFor(gw)(WorldAt(w, changes, i), changes[i]);
      assert Accounted(WorldAt(w, changes, i), changes[i], gw);
    }
  }

  lemma {:induction false} ProperPermits(gw: Source, refs: Refs, tombstones: set<ServiceName>)
    ensures Permits(Proper(gw, refs, tombstones), gw, true, KeysOf(refs.Keys))
    ensures Permits(Proper(gw, refs, tombstones), gw, false, KeysOf(tombstones))
  {
    forall w: World, c: Change | Accounted(w, c, gw) && c.add && c.key in KeysOf(refs.Keys)
      ensures Proper(gw, refs, tombstones)(w, c)
    {
      assert IntentionRuns.Indexed(refs, c.key);
    }
    forall w: World, c: Change | Accounted(w, c, gw) && !c.add && c.key in KeysOf(tombstones)
      ensures Proper(gw, refs, tombstones)(w, c)
    {
      assert Condemned(tombstones, c.key);
    }
  }

  ghost function KeysOf(names: set<ServiceName>): iset<ServiceName> { iset t | t in names :: Fold(t) }

  class Reconciler {
    const gw: Source
    const consul: ConsulConfig
    const tombstones: ServiceNameIndex
    ghost const start: World
    var refs: Refs
    var delivered: map<ServiceName, set<ServiceName>>

    ghost function State(): System
      reads this, consul, tombstones
    {
      System(refs, tombstones.idx, delivered, consul.world)
    }

    ghost predicate Valid()
      reads this, consul, tombstones
    {
      consul.gw == gw && Inv(State(), gw, start)
    }

    constructor (gw: Source, consul: ConsulConfig)
      requires consul.gw == gw && WorldOk(consul.world, gw)
      ensures Valid() && Initial(State(), gw) && this.gw == gw && this.consul == consul && fresh(tombstones)
      ensures start == consul.world
    {
      this.gw, this.consul, start := gw, consul, consul.world;
      tombstones := new ServiceNameIndex();
      refs, delivered := map[], map[];
    }

    /** One attempt: read, update, and write back, or delete what has no sources left. */
    method Attempt(k: ServiceName, add: bool) returns (err: bool, ghost change: Change)
      requires consul.gw == gw && WorldOk(consul.world, gw)
      modifies consul
      ensures WorldOk(consul.world, gw) && Effect(old(consul.world), consul.world, gw, k, add, err)
      ensures Accounted(old(consul.world), change, gw)
      ensures change.after == consul.world && change.key == k && change.add == add
      ensures consul.log == old(consul.log) + EventsOf(change)
    {
      var got := consul.Get(gw, k);
      ghost var read := consul.world;
      ForeignKeeps(old(consul.world), read, gw);
      if got.GetFailed? {
        NoEffect(old(consul.world), read, gw, k, add, true);
        return true, Change(k, add, Nothing, read, read, read);
      }
      var sources, idx := if got.Found? then got.sources else [], if got.Found? then got.idx else 0;
      err, change := WriteBack(k, add, sources, idx);
      EffectAfterForeign(old(consul.world), read, consul.world, gw, k, add, err);
      Associates(old(consul.log), [Read(k, read)], EventsOf(change)[1..]);
      assert EventsOf(change) == [Read(k, read)] + EventsOf(change)[1..];
    }

    /** The part of an attempt that follows the reading of sources and idx. */
    method WriteBack(k: ServiceName, add: bool, sources: seq<Source>, idx: nat)
      returns (err: bool, ghost change: Change)
      requires consul.gw == gw && WorldOk(consul.world, gw)
      requires sources == SourcesAt(consul.world, k) && idx == IndexAt(consul.world, k)
      modifies consul
      ensures WorldOk(consul.world, gw) && Effect(old(consul.world), consul.world, gw, k, add, err)
      ensures Done(change, gw) && change.read == old(consul.world)
      ensures change.after == consul.world && change.key == k && change.add == add
      ensures consul.log == old(consul.log) + EventsOf(change)[1..]
    {
      ghost var read := consul.world;
      OwnAtFirst(sources, gw);
      ForeignToItself(read, gw);
      if !Modifies(sources, gw, add) {
        NoEffect(read, read, gw, k, add, false);
        return false, Change(k, add, Nothing, read, read, read);
      }
      var updated := Updated(sources, gw, add);
      if |updated| == 0 {
        UpdateKeepsOthers(sources, gw, add);
        err, change := DeleteIntention(k, add, read);
      } else {
        err, change := WriteIntention(k, add, updated, idx, read);
      }
    }

    method DeleteIntention(k: ServiceName, ghost add: bool, ghost read: World) returns (err: bool, ghost change: Change)
      requires consul.gw == gw && consul.world == read && WorldOk(read, gw) && !add
      requires Modifies(SourcesAt(read, k), gw, add) && Updated(SourcesAt(read, k), gw, add) == []
      modifies consul
      ensures WorldOk(consul.world, gw) && Effect(read, consul.world, gw, k, add, err)
      ensures Done(change, gw) && change.read == read && change.after == consul.world && change.key == k && !change.add
      ensures consul.log == old(consul.log) + EventsOf(change)[1..]
    {
      ghost var now;
      err, now := consul.Delete(gw, k);
      ForeignKeeps(read, now, gw);
      if consul.world == now {
        NoEffect(read, now, gw, k, add, err || Granted(now, gw, k));
        change := Change(k, false, Nothing, read, now, now);
      } else {
        change := Change(k, false, Deed.Delete, read, now, consul.world);
      }
      if !err || consul.world != now {
        DeletedEffect(now, gw, k);
        EffectAfterForeign(read, now, consul.world, gw, k, add, err);
      }
    }

    method WriteIntention(k: ServiceName, add: bool, updated: seq<Source>, idx: nat, ghost read: World)
      returns (err: bool, ghost change: Change)
      requires consul.gw == gw && consul.world == read && WorldOk(read, gw)
      requires updated == Updated(SourcesAt(read, k), gw, add) && idx == IndexAt(read, k)
      requires Modifies(SourcesAt(read, k), gw, add) && updated != []
      modifies consul
      ensures WorldOk(consul.world, gw) && Effect(read, consul.world, gw, k, add, err)
      ensures Done(change, gw) && change.read == read && change.after == consul.world && change.key == k &&
              change.add == add
      ensures consul.log == old(consul.log) + EventsOf(change)[1..]
    {
      var r, now := consul.CAS(gw, k, updated, idx);
      ForeignKeeps(read, now, gw);
      err := !r.CasDone?;
      if consul.world == now && err {
        NoEffect(read, now, gw, k, add, true);
        change := Change(k, add, Nothing, read, now, now);
      } else {
        AcceptedCasUpdatesCurrent(read, now, gw, k, add);
        StoredEffect(now, gw, k, add);
        EffectAfterForeign(read, now, consul.world, gw, k, add, err);
        change := Change(k, add, Cas, read, now, consul.world);
      }
    }

    /** One more attempt, after those in changes. */
    method Again(k: ServiceName, add: bool, ghost w0: World, ghost l0: seq<Event>, ghost changes: seq<Change>,
                 ghost ok: (World, Change) -> bool)
      returns (err: bool, ghost changes': seq<Change>)
      requires consul.gw == gw && WorldOk(consul.world, gw) && Permits(ok, gw, add, iset{k})
      requires Linked(w0, changes, consul.world, ok) && Logged(l0, changes, consul.log) && AllAt(changes, k, add)
      modifies consul
      ensures WorldOk(consul.world, gw) && Effect(old(consul.world), consul.world, gw, k, add, err)
      ensures Linked(w0, changes', consul.world, ok) && Logged(l0, changes', consul.log) && AllAt(changes', k, add)
      ensures |changes'| == |changes| + 1
    {
      ghost var w, l := consul.world, consul.log;
      err, changes' := One(k, add, ok);
      LinksJoin(w0, changes, w, changes', consul.world, ok);
      LogsJoin(l0, changes, l, changes', consul.log);
      changes' := changes + changes';
    }

    method One(k: ServiceName, add: bool, ghost ok: (World, Change) -> bool)
      returns (err: bool, ghost changes: seq<Change>)
      requires consul.gw == gw && WorldOk(consul.world, gw) && Permits(ok, gw, add, iset{k})
      modifies consul
      ensures WorldOk(consul.world, gw) && Effect(old(consul.world), consul.world, gw, k, add, err)
      ensures Linked(old(consul.world), changes, consul.world, ok) && Logged(old(consul.log), changes, consul.log)
      ensures AllAt(changes, k, add) && |changes| == 1
    {
      ghost var change;
      err, change := Attempt(k, add);
      changes := [change];
      assert ok(old(consul.world), change);
      LogOfOne(old(consul.log), change);
    }

    /** The first attempt and at most three retries. */
    method Retry(k: ServiceName, add: bool, ghost ok: (World, Change) -> bool)
      returns (err: bool, ghost changes: seq<Change>)
      requires consul.gw == gw && WorldOk(consul.world, gw) && Permits(ok, gw, add, iset{k})
      modifies consul
      ensures WorldOk(consul.world, gw) && Effect(old(consul.world), consul.world, gw, k, add, err)
      ensures Linked(old(consul.world), changes, consul.world, ok) && Logged(old(consul.log), changes, consul.log)
      ensures AllAt(changes, k, add) && 1 <= |changes| <= 4
    {
      err, changes := One(k, add, ok);
      var retries := 0;
      while err && retries < 3
        invariant WorldOk(consul.world, gw) && Effect(old(consul.world), consul.world, gw, k, add, err)
        invariant Linked(old(consul.world), changes, consul.world, ok) && Logged(old(consul.log), changes, consul.log)
        invariant AllAt(changes, k, add) && |changes| == retries + 1 <= 4
        decreases 3 - retries
      {
        ghost var w := consul.world;
        err, changes := Again(k, add, old(consul.world), old(consul.log), changes, ok);
        EffectsCompose(old(consul.world), w, consul.world, gw, k, add, true, err);
        retries := retries + 1;
      }
    }

    /** changes is all that happened to Consul meanwhile, and all that Consul saw of the gateway. */
    method UpdateIntentionSources(target: ServiceName, add: bool) returns (err: bool, ghost changes: seq<Change>)
      requires consul.gw == gw && WorldOk(consul.world, gw)
      modifies consul
      ensures WorldOk(consul.world, gw) && Effect(old(consul.world), consul.world, gw, Fold(target), add, err)
      ensures History(old(consul.world), changes, consul.world, gw) && Logged(old(consul.log), changes, consul.log)
      ensures AllAt(changes, Fold(target), add) && 1 <= |changes| <= 4
      ensures LosesNothing(Events(changes), gw) <==> NoneRaced(changes, gw)
      ensures add ==> LosesNothing(Events(changes), gw)
    {
      AccountedPermits(gw, add, Fold(target));
      err, changes := Retry(Fold(target), add, AccountedFor(gw));
      HistoryKeepsOthersIff(old(consul.world), changes, consul.world, gw);
    }

    /** One more update, after the changes so far. */
    method UpdateNext(target: ServiceName, add: bool, ghost w0: World, ghost l0: seq<Event>, ghost changes: seq<Change>,
                      ghost ok: (World, Change) -> bool, ghost keys: iset<ServiceName>)
      returns (failed: bool, ghost changes': seq<Change>)
      requires consul.gw == gw && WorldOk(consul.world, gw) && Permits(ok, gw, add, keys) && Fold(target) in keys
      requires Linked(w0, changes, consul.world, ok) && Logged(l0, changes, consul.log)
      modifies consul
      ensures WorldOk(consul.world, gw) && Effect(old(consul.world), consul.world, gw, Fold(target), add, failed)
      ensures Linked(w0, changes', consul.world, ok) && Logged(l0, changes', consul.log)
    {
      ghost var w, l, more := consul.world, consul.log, [];
      failed, more := UpdateIntentionSources(target, add);
      Permitted(w, more, consul.world, gw, Fold(target), add, ok, keys);
      LinksJoin(w0, changes, w, more, consul.world, ok);
      LogsJoin(l0, changes, l, more, consul.log);
      changes' := changes + more;
    }

    method GrantOne(targets: seq<ServiceName>, i: nat, err: bool, ghost w0: World, ghost l0: seq<Event>,
                    ghost changes: seq<Change>, ghost ok: (World, Change) -> bool)
      returns (err': bool, ghost changes': seq<Change>)
      requires consul.gw == gw && WorldOk(consul.world, gw) && Permits(ok, gw, true, KeysOf(refs.Keys))
      requires i < |targets| && targets[i] in refs && (!err ==> GrantedBelow(consul.world, gw, targets, i))
      requires GrantedSoFar(w0, consul.world, gw, refs)
      requires Linked(w0, changes, consul.world, ok) && Logged(l0, changes, consul.log)
      modifies consul
      ensures WorldOk(consul.world, gw) && GrantedSoFar(w0, consul.world, gw, refs)
      ensures Linked(w0, changes', consul.world, ok) && Logged(l0, changes', consul.log)
      ensures !err' ==> GrantedBelow(consul.world, gw, targets, i + 1)
    {
      var target := targets[i];
      assert IntentionRuns.Indexed(refs, Fold(target));
      ghost var w := consul.world;
      var failed;
      failed, changes' := UpdateNext(target, true, w0, l0, changes, ok, KeysOf(refs.Keys));
      GrantedOneMore(w0, w, consul.world, gw, refs, Fold(target), failed);
      err' := err || failed;
    }

    /** Grants at every indexed target. */
    method GrantAll(targets: seq<ServiceName>, ghost ok: (World, Change) -> bool)
      returns (err: bool, ghost changes: seq<Change>)
      requires consul.gw == gw && WorldOk(consul.world, gw)
      requires ListsSet(targets, refs.Keys) && Permits(ok, gw, true, KeysOf(refs.Keys))
      modifies consul
      ensures WorldOk(consul.world, gw) && GrantedSoFar(old(consul.world), consul.world, gw, refs)
      ensures !err ==> forall t | t in refs :: Granted(consul.world, gw, Fold(t))
      ensures Linked(old(consul.world), changes, consul.world, ok) && Logged(old(consul.log), changes, consul.log)
    {
      err, changes := GrantEach(targets, ok);
      if !err {
        ListedGrants(targets, refs.Keys, consul.world, gw);
      }
    }

    /** An error at one target does not stop the others. */
    method GrantEach(targets: seq<ServiceName>, ghost ok: (World, Change) -> bool)
      returns (err: bool, ghost changes: seq<Change>)
      requires consul.gw == gw && WorldOk(consul.world, gw) && Permits(ok, gw, true, KeysOf(refs.Keys))
      requires forall j | 0 <= j < |targets| :: targets[j] in refs
      modifies consul
      ensures WorldOk(consul.world, gw) && GrantedSoFar(old(consul.world), consul.world, gw, refs)
      ensures !err ==> GrantedBelow(consul.world, gw, targets, |targets|)
      ensures Linked(old(consul.world), changes, consul.world, ok) && Logged(old(consul.log), changes, consul.log)
    {
      err, changes := false, [];
      ghost var w0, l0 := consul.world, consul.log;
      for i := 0 to |targets|
        invariant WorldOk(consul.world, gw) && GrantedSoFar(w0, consul.world, gw, refs)
        invariant Linked(w0, changes, consul.world, ok) && Logged(l0, changes, consul.log)
        invariant !err ==> GrantedBelow(consul.world, gw, targets, i)
      {
        err, changes := GrantOne(targets, i, err, w0, l0, changes, ok);
      }
    }

    method RevokeOne(target: ServiceName, ghost w0: World, ghost l0: seq<Event>, ghost t0: set<ServiceName>,
                     ghost changes: seq<Change>, ghost ok: (World, Change) -> bool)
      returns (failed: bool, ghost changes': seq<Change>)
      requires consul.gw == gw && WorldOk(consul.world, gw) && target in t0 && Permits(ok, gw, false, KeysOf(t0))
      requires RevokedSoFar(w0, consul.world, gw, t0, tombstones.idx)
      requires Linked(w0, changes, consul.world, ok) && Logged(l0, changes, consul.log)
      modifies consul, tombstones
      ensures WorldOk(consul.world, gw) && RevokedSoFar(w0, consul.world, gw, t0, tombstones.idx)
      ensures Linked(w0, changes', consul.world, ok) && Logged(l0, changes', consul.log)
      ensures tombstones.idx == if failed then old(tombstones.idx) else old(tombstones.idx) - {target}
    {
      ghost var w := consul.world;
      failed, changes' := UpdateNext(target, false, w0, l0, changes, ok, KeysOf(t0));
      RevokedOneMore(w0, w, consul.world, gw, t0, tombstones.idx, target, failed);
      if !failed {
        tombstones.Remove([target]);
      }
    }

    /** Revokes at every condemned target, forgetting those where it worked. */
    method RevokeAll(targets: seq<ServiceName>, ghost ok: (World, Change) -> bool)
      returns (err: bool, ghost changes: seq<Change>)
      requires consul.gw == gw && WorldOk(consul.world, gw) && ListsSet(targets, tombstones.idx)
      requires Permits(ok, gw, false, KeysOf(tombstones.idx))
      modifies consul, tombstones
      ensures WorldOk(consul.world, gw)
      ensures RevokedSoFar(old(consul.world), consul.world, gw, old(tombstones.idx), tombstones.idx)
      ensures !err ==> tombstones.idx == {}
      ensures Linked(old(consul.world), changes, consul.world, ok) && Logged(old(consul.log), changes, consul.log)
    {
      err, changes := false, [];
      ghost var w0, l0, t0 := consul.world, consul.log, tombstones.idx;
      for i := 0 to |targets|
        invariant WorldOk(consul.world, gw) && RevokedSoFar(w0, consul.world, gw, t0, tombstones.idx)
        invariant Linked(w0, changes, consul.world, ok) && Logged(l0, changes, consul.log)
        invariant !err ==> forall j | 0 <= j < i :: targets[j] !in tombstones.idx
      {
        var failed;
        failed, changes := RevokeOne(targets[i], w0, l0, t0, changes, ok);
        err := err || failed;
      }
      if !err {
        ListedGone(targets, t0, tombstones.idx);
      }
    }

    /**
     * changes is all that happened to Consul meanwhile, attempts at tracked targets and others' writes, and
     * all that Consul saw of the gateway.
     */
    method SyncIntentions() returns (err: bool, ghost changes: seq<Change>)
      requires Valid()
      modifies consul, tombstones
      ensures Valid()
      ensures SyncEffect(old(State()), tombstones.idx, consul.world, gw, err)
      ensures State() == Next(old(State()), Synchronise(tombstones.idx, consul.world, err))
      ensures Recorded(old(consul.world), changes, consul.world, gw, refs, old(tombstones.idx))
      ensures Logged(old(consul.log), changes, consul.log)
      ensures LosesNothing(Events(changes), gw) <==> NoneRaced(changes, gw)
    {
      ghost var before, l0 := State(), consul.log;
      var targets := ServiceNames.ListMissing(refs.Keys, {});
      assert refs.Keys - {} == refs.Keys;
      ghost var ok := Proper(gw, refs, before.tombstones);
      ProperPermits(gw, refs, before.tombstones);
      var grantErr, granting := GrantAll(targets, ok);
      ghost var between, l1 := consul.world, consul.log;
      var condemned := tombstones.All();
      var revokeErr, revoking := RevokeAll(condemned, ok);
      err := grantErr || revokeErr;
      changes := granting + revoking;
      LinksJoin(before.world, granting, between, revoking, consul.world, ok);
      LogsJoin(l0, granting, l1, revoking, consul.log);
      ProperIsRecorded(before.world, changes, consul.world, gw, refs, before.tombstones);
      HistoryKeepsOthersIff(before.world, changes, consul.world, gw);
      SyncedAfter(before, between, consul.world, tombstones.idx, gw, err);
      ActionKeepsInv(before, Synchronise(tombstones.idx, consul.world, err), gw, start);
    }

    // ----- Deliveries ----------------------------------------------------------------------------------------

    method AddRef(target: ServiceName, source: ServiceName)
      modifies this`refs
      ensures refs == old(refs)[target := RefsOf(old(refs), target) + {source}]
    {
      if target !in refs {
        refs := refs[target := {}];
      }
      refs := refs[target := refs[target] + {source}];
    }

    method DelRef(target: ServiceName, source: ServiceName)
      modifies this`refs
      ensures refs == if target !in old(refs) then old(refs)
                      else if old(refs)[target] - {source} == {} then old(refs) - {target}
                      else old(refs)[target := old(refs)[target] - {source}]
    {
      if target in refs {
        refs := refs[target := refs[target] - {source}];
        if refs[target] == {} {
          refs := refs - {target};
        }
      }
    }

    /** Added targets first, then removed ones. */
    method HandleChainResult(source: ServiceName, added: seq<ServiceName>, removed: seq<ServiceName>)
      requires NonEmptyRefs(refs)
      modifies this`refs, tombstones
      ensures refs == HandledRefs(old(refs), source, set t | t in added, set t | t in removed)
      ensures tombstones.idx == HandledTombstones(old(refs), old(tombstones.idx), source, set t | t in added,
                                                  set t | t in removed)
    {
      ghost var r0, t0 := refs, tombstones.idx;
      HandleAdded(source, added);
      HandleRemoved(source, removed, r0, t0, Names(added));
    }

    method HandleAdded(source: ServiceName, added: seq<ServiceName>)
      requires NonEmptyRefs(refs)
      modifies this`refs, tombstones
      ensures refs == HandledRefs(old(refs), source, Names(added), {})
      ensures tombstones.idx == old(tombstones.idx) - Names(added)
    {
      ghost var r0, t0 := refs, tombstones.idx;
      for i := 0 to |added|
        invariant refs == HandledRefs(r0, source, Names(added[..i]), {})
        invariant tombstones.idx == t0 - Names(added[..i])
      {
        assert Names(added[..i + 1]) == Names(added[..i]) + {added[i]};
        AddOne(r0, source, Names(added[..i]), added[i]);
        AddRef(added[i], source);
        tombstones.Remove([added[i]]);
      }
      assert added[..|added|] == added;
    }

    method HandleRemoved(source: ServiceName, removed: seq<ServiceName>,
                         ghost r0: map<ServiceName, set<ServiceName>>, ghost t0: set<ServiceName>,
                         ghost all: set<ServiceName>)
      requires NonEmptyRefs(r0)
      requires refs == HandledRefs(r0, source, all, {}) && tombstones.idx == t0 - all
      modifies this`refs, tombstones
      ensures refs == HandledRefs(r0, source, all, Names(removed))
      ensures tombstones.idx == HandledTombstones(r0, t0, source, all, Names(removed))
    {
      for i := 0 to |removed|
        invariant refs == HandledRefs(r0, source, all, Names(removed[..i]))
        invariant tombstones.idx == HandledTombstones(r0, t0, source, all, Names(removed[..i]))
      {
        assert Names(removed[..i + 1]) == Names(removed[..i]) + {removed[i]};
        RemoveOne(r0, source, all, Names(removed[..i]), removed[i]);
        CondemnOne(r0, t0, source, all, Names(removed[..i]), removed[i]);
        DelRef(removed[i], source);
        if RefsOf(refs, removed[i]) == {} {
          tombstones.Add([removed[i]]);
        }
      }
      assert removed[..|removed|] == removed;
    }

    /** A successful query of source's chain: the watcher delivers what changed, then advances. */
    method WatchOnce(source: ServiceName, chain: CompiledChain)
      requires Valid() && source in delivered
      modifies this, tombstones
      ensures Valid()
      ensures State() == Next(old(State()), Deliver(source, ChainTargets(chain)))
      ensures source in delivered && forall n: ServiceName :: n in delivered[source] <==> LeadsTo(chain, n)
    {
      ghost var before := State();
      var prev := new ServiceNameIndex();
      prev.idx := delivered[source];
      var names := CompiledDiscoChainToServiceNames(chain);
      var added, removed := prev.Diff(names);
      assert Names(added) == names.idx - prev.idx && Names(removed) == prev.idx - names.idx;
      HandleChainResult(source, added, removed);
      delivered := delivered[source := names.idx];
      ActionKeepsInv(before, Deliver(source, ChainTargets(chain)), gw, start);
    }

    /** Watchers of dropped services are cancelled; new services get a watcher that has delivered nothing. */
    method UpdateChainWatchers(current: ServiceNameIndex, services: ServiceNameIndex)
      requires Valid() && current.idx == delivered.Keys
      modifies this`delivered
      ensures Valid()
      ensures State() == Next(old(State()), SetServices(services.idx))
      ensures delivered.Keys == services.idx
      ensures forall x | x in delivered :: delivered[x] == if x in old(delivered) then old(delivered)[x] else {}
    {
      ghost var before := State();
      var added, removed := current.Diff(services);
      CancelWatchers(removed);
      StartWatchers(added);
      assert delivered == Next(before, SetServices(services.idx)).delivered by {
        assert Names(removed) == before.delivered.Keys - services.idx;
        assert Names(added) == services.idx - before.delivered.Keys;
      }
      ActionKeepsInv(before, SetServices(services.idx), gw, start);
    }

    method CancelWatchers(removed: seq<ServiceName>)
      modifies this`delivered
      ensures delivered == old(delivered) - Names(removed)
    {
      for i := 0 to |removed|
        invariant delivered == old(delivered) - Names(removed[..i])
      {
        assert Names(removed[..i + 1]) == Names(removed[..i]) + {removed[i]};
        delivered := delivered - {removed[i]};
      }
      assert removed[..|removed|] == removed;
    }

    method StartWatchers(added: seq<ServiceName>)
      modifies this`delivered
      ensures delivered == (map x | x in Names(added) :: {}) + old(delivered)
    {
      for i := 0 to |added|
        invariant delivered == (map x | x in Names(added[..i]) :: {}) + old(delivered)
      {
        assert Names(added[..i + 1]) == Names(added[..i]) + {added[i]};
        if added[i] !in delivered {
          delivered := delivered[added[i] := {}];
        }
      }
      assert added[..|added|] == added;
    }
  }

  function Names(s: seq<ServiceName>): set<ServiceName> { set n | n in s }

  ghost predicate GrantedBelow(w: World, gw: Source, targets: seq<ServiceName>, n: nat)
    requires n <= |targets|
  {
    forall j | 0 <= j < n :: Granted(w, gw, Fold(targets[j]))
  }

  lemma {:induction false} ListedGrants(targets: seq<ServiceName>, names: set<ServiceName>, w: World, gw: Source)
    requires ListsSet(targets, names) && GrantedBelow(w, gw, targets, |targets|)
    ensures forall t | t in names :: Granted(w, gw, Fold(t))
  {
    forall t | t in names
      ensures Granted(w, gw, Fold(t))
    {
      assert t in targets;
      var j :| 0 <= j < |targets| && targets[j] == t;
    }
  }

  lemma {:induction false} ListedGone(targets: seq<ServiceName>, names: set<ServiceName>, left: set<ServiceName>)
    requires ListsSet(targets, names) && left <= names && forall j | 0 <= j < |targets| :: targets[j] !in left
    ensures left == {}
  {
    forall t | t in names
      ensures t !in left
    {
      assert t in targets;
      var j :| 0 <= j < |targets| && targets[j] == t;
    }
  }

  /** w results from w0 by granting at indexed targets only. */
  ghost predicate GrantedSoFar(w0: World, w: World, gw: Source, refs: Refs) {
    && (forall k: ServiceName | Granted(w0, gw, k) :: Granted(w, gw, k))
    && (forall k: ServiceName | Granted(w, gw, k) :: Granted(w0, gw, k) || IntentionRuns.Indexed(refs, k))
  }

  lemma {:induction false} GrantedOneMore(w0: World, w: World, w': World, gw: Source, refs: Refs, k: ServiceName,
                                          failed: bool)
    requires GrantedSoFar(w0, w, gw, refs) && Effect(w, w', gw, k, true, failed) && IntentionRuns.Indexed(refs, k)
    ensures GrantedSoFar(w0, w', gw, refs)
    ensures forall j: ServiceName | Granted(w, gw, j) :: Granted(w', gw, j)
  {
    forall j: ServiceName
      ensures Granted(w, gw, j) ==> Granted(w', gw, j)
      ensures Granted(w', gw, j) ==> Granted(w, gw, j) || IntentionRuns.Indexed(refs, j)
    {
      assert j == k || j != k;
    }
  }

  /** Granting, then revoking, is a synchronisation. */
  lemma {:induction false} SyncedAfter(s: System, between: World, world': World, tombstones': set<ServiceName>,
                                       gw: Source, err: bool)
    requires WorldOk(world', gw) && GrantedSoFar(s.world, between, gw, s.refs)
    requires RevokedSoFar(between, world', gw, s.tombstones, tombstones')
    requires !err ==> tombstones' == {} && forall t | t in s.refs :: Granted(between, gw, Fold(t))
    ensures SyncEffect(s, tombstones', world', gw, err)
  {
    forall t | t in s.refs && !err
      ensures Granted(world', gw, Fold(t)) || Condemned(s.tombstones, Fold(t))
    {
      assert Granted(between, gw, Fold(t));
    }
  }

  /** w results from w0 by revoking at condemned targets only, among them all that left the tombstones. */
  ghost predicate RevokedSoFar(w0: World, w: World, gw: Source, t0: set<ServiceName>, tombstones: set<ServiceName>) {
    && tombstones <= t0
    && (forall k: ServiceName | Granted(w, gw, k) :: Granted(w0, gw, k))
    && (forall t | t in t0 - tombstones :: !Granted(w, gw, Fold(t)))
    && (forall k: ServiceName | Granted(w0, gw, k) && !Granted(w, gw, k) :: Condemned(t0, k))
  }

  lemma {:induction false} RevokedOneMore(w0: World, w: World, w': World, gw: Source, t0: set<ServiceName>,
                                          tombstones: set<ServiceName>, t: ServiceName, failed: bool)
    requires RevokedSoFar(w0, w, gw, t0, tombstones) && Effect(w, w', gw, Fold(t), false, failed) && t in t0
    ensures RevokedSoFar(w0, w', gw, t0, if failed then tombstones else tombstones - {t})
  {
    forall k: ServiceName
      ensures Granted(w', gw, k) ==> Granted(w, gw, k)
    {
      assert k == Fold(t) || k != Fold(t);
    }
    forall k: ServiceName | Granted(w0, gw, k) && !Granted(w', gw, k)
      ensures Condemned(t0, k)
    {
      assert k != Fold(t) ==> !Granted(w, gw, k);
    }
  }

  lemma {:induction false} AddOne(refs: Refs, source: ServiceName, added: set<ServiceName>, t: ServiceName)
    requires NonEmptyRefs(refs)
    ensures var h := HandledRefs(refs, source, added, {});
            HandledRefs(refs, source, added + {t}, {}) == h[t := RefsOf(h, t) + {source}]
  {
    var h := HandledRefs(refs, source, added, {});
    var l, r := HandledRefs(refs, source, added + {t}, {}), h[t := RefsOf(h, t) + {source}];
    forall x: ServiceName
      ensures x in l <==> x in r
      ensures x in l ==> l[x] == r[x]
    {
      AddedAt(refs, source, added, t, x);
    }
  }

  lemma {:induction false} AddedAt(refs: Refs, source: ServiceName, added: set<ServiceName>, t: ServiceName,
                                   x: ServiceName)
    requires NonEmptyRefs(refs)
    ensures RefsOf(HandledRefs(refs, source, added, {}), x) == AfterDelta(refs, source, added, {}, x)
    ensures AfterDelta(refs, source, added + {t}, {}, x) ==
            if x == t then AfterDelta(refs, source, added, {}, x) + {source} else AfterDelta(refs, source, added, {}, x)
  {}

  lemma {:induction false} RemoveOne(refs: Refs, source: ServiceName, added: set<ServiceName>,
                                     removed: set<ServiceName>, t: ServiceName)
    requires NonEmptyRefs(refs)
    ensures var h := HandledRefs(refs, source, added, removed);
            HandledRefs(refs, source, added, removed + {t}) ==
            if t !in h then h else if h[t] - {source} == {} then h - {t} else h[t := h[t] - {source}]
  {
    var h := HandledRefs(refs, source, added, removed);
    forall x: ServiceName
      ensures AfterDelta(refs, source, added, removed + {t}, x) ==
              AfterDelta(refs, source, added, removed, x) - (if x == t then {source} else {})
    {}
  }

  lemma {:induction false} CondemnOne(refs: Refs, tombstones: set<ServiceName>, source: ServiceName,
                                      added: set<ServiceName>, removed: set<ServiceName>, t: ServiceName)
    requires NonEmptyRefs(refs)
    ensures HandledTombstones(refs, tombstones, source, added, removed + {t}) ==
            HandledTombstones(refs, tombstones, source, added, removed) +
            if RefsOf(HandledRefs(refs, source, added, removed + {t}), t) == {} then {t} else {}
  {
    forall x: ServiceName | x in removed
      ensures AfterDelta(refs, source, added, removed + {t}, x) == AfterDelta(refs, source, added, removed, x)
    {}
  }

  // ----- Compiled discovery chains ------------------------------------------------------------------------------

  datatype ChainTarget = ChainTarget(service: string, namespace: string)

  datatype CompiledChain = CompiledChain(serviceName: string, protocol: string, targets: map<string, ChainTarget>)

  /** The chain's own service counts as a target only when the protocol is tcp. */
  predicate Counts(chain: CompiledChain, t: ChainTarget) {
    !(t.service == chain.serviceName && chain.protocol != "tcp")
  }

  function ChainTargets(chain: CompiledChain): set<ServiceName> {
    set id | id in chain.targets && Counts(chain, chain.targets[id]) ::
      ServiceName(chain.targets[id].service, chain.targets[id].namespace)
  }

  /** The chain leads to n: some target is that service, other than the chain's own unless the chain is tcp. */
  ghost predicate LeadsTo(chain: CompiledChain, n: ServiceName) {
    && (n.name != chain.serviceName || chain.protocol == "tcp")
    && exists id | id in chain.targets ::
         chain.targets[id].service == n.name && chain.targets[id].namespace == n.namespace
  }

  lemma {:induction false} ChainTargetsAre(chain: CompiledChain)
    ensures forall n: ServiceName :: n in ChainTargets(chain) <==> LeadsTo(chain, n)
  {
    forall n: ServiceName | LeadsTo(chain, n)
      ensures n in ChainTargets(chain)
    {
      var id :|
        id in chain.targets && chain.targets[id].service == n.name && chain.targets[id].namespace == n.namespace;
      assert n == ServiceName(chain.targets[id].service, chain.targets[id].namespace);
    }
  }

  /** A tcp chain delivers all its targets; any other never its own service, and all others. */
  lemma {:induction false} OwnServiceOnlyForTcp(chain: CompiledChain, id: string, namespace: string)
    ensures id in chain.targets && (chain.protocol == "tcp" || chain.targets[id].service != chain.serviceName) ==>
              ServiceName(chain.targets[id].service, chain.targets[id].namespace) in ChainTargets(chain)
    ensures chain.protocol != "tcp" ==> ServiceName(chain.serviceName, namespace) !in ChainTargets(chain)
  {
    ChainTargetsAre(chain);
  }

  /** k is the key of n's intention: "default" is written "". */
  ghost predicate KeyOf(k: ServiceName, n: ServiceName) {
    k.name == n.name && if n.namespace == "default" then k.namespace == "" else k.namespace == n.namespace
  }

  /** Some watched chain leads to a target whose key is k. */
  ghost predicate SomeChainLeadsTo(chains: map<ServiceName, CompiledChain>, k: ServiceName) {
    exists x: ServiceName, n: ServiceName :: x in chains && LeadsTo(chains[x], n) && KeyOf(k, n)
  }

  /**
   * End to end, where chains are the chains last seen of the watched services: after a run without dropped
   * services and a synchronisation without errors, exactly the targets that some chain leads to grant the
   * gateway access, if and only if no target shared its key with a condemned one and nothing granted access
   * untracked.
   */
  lemma {:induction false} GrantsFollowCompiledChainsIff(init: System, actions: seq<Action>, s: System, gw: Source,
                                                         tombstones': set<ServiceName>, world': World,
                                                         chains: map<ServiceName, CompiledChain>)
    requires Initial(init, gw) && Run(init, actions, s, gw) && NoDrops(init, actions, gw)
    requires SyncEffect(s, tombstones', world', gw, false)
    requires s.delivered == map x | x in chains :: ChainTargets(chains[x])
    ensures (forall k: ServiceName :: Granted(world', gw, k) <==> SomeChainLeadsTo(chains, k)) <==>
            NoSharedKey(s) && AllTracked(s, gw)
  {
    GrantsFollowTheChainsIff(init, actions, s, gw, tombstones', world');
    forall k: ServiceName
      ensures IntentionRuns.Delivered(s, k) <==> SomeChainLeadsTo(chains, k)
    {
      forall x | x in chains
        ensures forall n: ServiceName :: n in ChainTargets(chains[x]) <==> LeadsTo(chains[x], n)
      {
        ChainTargetsAre(chains[x]);
      }
      if IntentionRuns.Delivered(s, k) {
        var x: ServiceName, t: ServiceName :| x in s.delivered && t in s.delivered[x] && Fold(t) == k;
        assert LeadsTo(chains[x], t) && KeyOf(k, t);
      }
      if SomeChainLeadsTo(chains, k) {
        var x: ServiceName, n: ServiceName :| x in chains && LeadsTo(chains[x], n) && KeyOf(k, n);
        assert n in s.delivered[x] && Fold(n) == k;
      }
    }
  }

  lemma {:induction false} OneMoreTarget(chain: CompiledChain, m: map<string, ChainTarget>, id: string)
    requires id in chain.targets && id !in m
    ensures var t := chain.targets[id];
            ChainTargets(chain.(targets := m[id := t])) ==
            ChainTargets(chain.(targets := m)) + if Counts(chain, t) then {ServiceName(t.service, t.namespace)} else {}
  {
    var t := chain.targets[id];
    var smaller, larger := chain.(targets := m), chain.(targets := m[id := t]);
    forall n | n in ChainTargets(smaller)
      ensures n in ChainTargets(larger)
    {
      var i :| i in m && Counts(smaller, m[i]) && n == ServiceName(m[i].service, m[i].namespace);
      assert i in larger.targets && larger.targets[i] == m[i];
    }
    if Counts(chain, t) {
      assert id in larger.targets && larger.targets[id] == t;
    }
  }

  method CompiledDiscoChainToServiceNames(chain: CompiledChain) returns (names: ServiceNameIndex)
    ensures fresh(names) && names.idx == ChainTargets(chain)
    ensures forall n: ServiceName :: n in names.idx <==> LeadsTo(chain, n)
  {
    ChainTargetsAre(chain);
    names := new ServiceNameIndex();
    var rest := chain.targets.Keys;
    while rest != {}
      invariant fresh(names) && rest <= chain.targets.Keys
      invariant names.idx == ChainTargets(chain.(targets := chain.targets - rest))
      decreases rest
    {
      var id :| id in rest;
      var target := chain.targets[id];
      ghost var before := rest;
      rest := rest - {id};
      assert chain.targets - rest == (chain.targets - before)[id := target];
      OneMoreTarget(chain, chain.targets - before, id);
      if target.service == chain.serviceName && chain.protocol != "tcp" {
        continue;
      }
      names.Add([ServiceName(target.service, target.namespace)]);
    }
    assert chain.targets - {} == chain.targets;
  }
}
