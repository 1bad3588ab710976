// Runs of the intentions reconciler: deliveries from the discovery chain watchers, changes of the
// watched services, synchronisations in which any Consul call may fail, and foreign writes.

module IntentionRuns {
  import opened Wrappers
  import opened ServiceNames
  import opened IntentionSpec

  type Refs = map<ServiceName, set<ServiceName>>

  // ----- Handling a delivery -----------------------------------------------------------------------------------

  function RefsOf(refs: Refs, t: ServiceName): set<ServiceName> {
    if t in refs then refs[t] else {}
  }

  /** Who refers to t once source's added and removed targets are accounted for. */
  function AfterDelta(refs: Refs, source: ServiceName, added: set<ServiceName>, removed: set<ServiceName>,
                      t: ServiceName): set<ServiceName> {
    (RefsOf(refs, t) + if t in added then {source} else {}) - if t in removed then {source} else {}
  }

  /** Targets nobody refers to are not indexed. */
  function HandledRefs(refs: Refs, source: ServiceName, added: set<ServiceName>, removed: set<ServiceName>): Refs {
    map t | t in refs.Keys + added && AfterDelta(refs, source, added, removed, t) != {} ::
      AfterDelta(refs, source, added, removed, t)
  }

  /** Added targets are spared; removed ones that nobody refers to any more are condemned. */
  function HandledTombstones(refs: Refs, tombstones: set<ServiceName>, source: ServiceName, added: set<ServiceName>,
                             removed: set<ServiceName>): set<ServiceName> {
    (tombstones - added) + set t | t in removed && AfterDelta(refs, source, added, removed, t) == {}
  }

  // ----- The system ----------------------------------------------------------------------------------------------

  /** delivered holds, for each watched service, the targets its watcher last delivered. */
  datatype System = System(refs: Refs, tombstones: set<ServiceName>, delivered: map<ServiceName, set<ServiceName>>,
                           world: World)

  ghost predicate Tracked(s: System, k: ServiceName) {
    exists t: ServiceName :: t in s.refs.Keys + s.tombstones && Fold(t) == k
  }

  ghost predicate Indexed(refs: Refs, k: ServiceName) {
    exists t: ServiceName :: t in refs && Fold(t) == k
  }

  /** Some condemned target is stored under k. */
  ghost predicate Condemned(tombstones: set<ServiceName>, k: ServiceName) {
    exists u: ServiceName :: u in tombstones && Fold(u) == k
  }

  ghost predicate NonEmptyRefs(refs: Refs) {
    forall t | t in refs :: refs[t] != {}
  }

  /** start is Consul as the reconciler found it: what was granted then need not be tracked. */
  ghost predicate Inv(s: System, gw: Source, start: World) {
    && WorldOk(s.world, gw)
    && NonEmptyRefs(s.refs)
    && s.refs.Keys !! s.tombstones
    && forall k: ServiceName | Granted(s.world, gw, k) :: Tracked(s, k) || Granted(start, gw, k)
  }

  /**
   * What a synchronisation may do: it grants only at indexed targets, revokes only at condemned ones,
   * forgets a tombstone only once its grant is gone, and, without an error, forgets them all and has
   * granted at every indexed target whose key no tombstone shares.
   */
  ghost predicate SyncEffect(s: System, tombstones': set<ServiceName>, world': World, gw: Source, err: bool) {
    && WorldOk(world', gw)
    && tombstones' <= s.tombstones
    && (forall k: ServiceName | Granted(world', gw, k) :: Granted(s.world, gw, k) || Indexed(s.refs, k))
    && (forall k: ServiceName | Granted(s.world, gw, k) && !Granted(world', gw, k) :: Condemned(s.tombstones, k))
    && (forall t | t in s.tombstones - tombstones' :: !Granted(world', gw, Fold(t)))
    && (!err ==> tombstones' == {} &&
                 forall t | t in s.refs :: Granted(world', gw, Fold(t)) || Condemned(s.tombstones, Fold(t)))
  }

  datatype Action =
    | Deliver(source: ServiceName, targets: set<ServiceName>)
    | SetServices(services: set<ServiceName>)
    | Synchronise(tombstones: set<ServiceName>, world: World, err: bool)
    | ForeignWrites(world: World)

  ghost predicate Enabled(s: System, a: Action, gw: Source) {
    match a
    case Deliver(source, _) => source in s.delivered
    case SetServices(_) => true
    case Synchronise(tombstones', world', err) => SyncEffect(s, tombstones', world', gw, err)
    case ForeignWrites(world') => Foreign(s.world, world', gw)
  }

  /** A watcher delivers what changed since its last delivery; a new watcher has delivered nothing. */
  ghost function Next(s: System, a: Action): System
    requires a.Deliver? ==> a.source in s.delivered
  {
    match a
    case Deliver(source, targets) =>
      var prev := s.delivered[source];
      System(HandledRefs(s.refs, source, targets - prev, prev - targets),
             HandledTombstones(s.refs, s.tombstones, source, targets - prev, prev - targets),
             s.delivered[source := targets], s.world)
    case SetServices(services) =>
      s.(delivered := map x | x in services :: if x in s.delivered then s.delivered[x] else {})
    case Synchronise(tombstones', world', _) => s.(tombstones := tombstones', world := world')
    case ForeignWrites(world') => s.(world := world')
  }

  ghost predicate Run(s: System, actions: seq<Action>, s': System, gw: Source)
    decreases |actions|
  {
    if actions == [] then s' == s
    else Enabled(s, actions[0], gw) && Run(Next(s, actions[0]), actions[1..], s', gw)
  }

  /** At the start nothing is tracked; Consul may hold grants from an earlier reconciler. */
  ghost predicate Initial(s: System, gw: Source) {
    s.refs == map[] && s.tombstones == {} && s.delivered == map[] && WorldOk(s.world, gw)
  }

  // ----- No orphan grants --------------------------------------------------------------------------------------------

  lemma {:induction false} DeliveryKeepsTracking(s: System, a: Action)
    requires a.Deliver? && a.source in s.delivered && NonEmptyRefs(s.refs) && s.refs.Keys !! s.tombstones
    ensures var s' := Next(s, a);
            && NonEmptyRefs(s'.refs) && s'.refs.Keys !! s'.tombstones
            && s.refs.Keys + s.tombstones <= s'.refs.Keys + s'.tombstones
  {
    var prev := s.delivered[a.source];
    var added, removed, s' := a.targets - prev, prev - a.targets, Next(s, a);
    forall t | t in s.refs.Keys + s.tombstones
      ensures t in s'.refs.Keys + s'.tombstones
    {
      if t in added {
        assert a.source in AfterDelta(s.refs, a.source, added, removed, t);
      } else if t in s.refs && t !in removed {
        assert AfterDelta(s.refs, a.source, added, removed, t) == s.refs[t];
      }
    }
  }

  lemma {:induction false} ActionKeepsInv(s: System, a: Action, gw: Source, start: World)
    requires Inv(s, gw, start) && Enabled(s, a, gw)
    ensures Inv(Next(s, a), gw, start)
  {
    var s' := Next(s, a);
    match a
    case Deliver(_, _) =>
      DeliveryKeepsTracking(s, a);
      forall k: ServiceName | Tracked(s, k)
        ensures Tracked(s', k)
      {
        var t: ServiceName :| t in s.refs.Keys + s.tombstones && Fold(t) == k;
        assert t in s'.refs.Keys + s'.tombstones;
      }
    case SetServices(_) =>
      assert forall k: ServiceName | Tracked(s, k) :: Tracked(s', k);
    case Synchronise(tombstones', world', err) =>
      forall k: ServiceName | Granted(world', gw, k) && !Granted(start, gw, k)
        ensures Tracked(s', k)
      {
        assert Indexed(s.refs, k) || Tracked(s, k);
        GrantStaysTracked(s, tombstones', world', gw, err, k);
      }
    case ForeignWrites(world') =>
      ForeignKeeps(s.world, world', gw);
      assert forall k: ServiceName | Tracked(s, k) :: Tracked(s', k);
  }

  lemma {:induction false} GrantStaysTracked(s: System, tombstones': set<ServiceName>, world': World, gw: Source,
                                             err: bool, k: ServiceName)
    requires SyncEffect(s, tombstones', world', gw, err) && Granted(world', gw, k) &&
             (Indexed(s.refs, k) || Tracked(s, k))
    ensures exists t: ServiceName :: t in s.refs.Keys + tombstones' && Fold(t) == k
  {
    if Indexed(s.refs, k) {
      var t: ServiceName :| t in s.refs && Fold(t) == k;
      assert t in s.refs.Keys + tombstones';
    } else {
      var t: ServiceName :| t in s.refs.Keys + s.tombstones && Fold(t) == k;
      assert t in s.refs.Keys + tombstones';
    }
  }

  lemma {:induction false} RunKeepsInv(s: System, actions: seq<Action>, s': System, gw: Source, start: World)
    requires Inv(s, gw, start) && Run(s, actions, s', gw)
    ensures Inv(s', gw, start)
    decreases |actions|
  {
    if actions != [] {
      ActionKeepsInv(s, actions[0], gw, start);
      RunKeepsInv(Next(s, actions[0]), actions[1..], s', gw, start);
    }
  }

  /**
   * In every reachable state, with any Consul call failing: whatever grants the gateway access is
   * indexed or condemned, or did so before the reconciler started; nothing is both indexed and
   * condemned, and every indexed target is referred to by some source.
   */
  lemma {:induction false} NoOrphanGrants(init: System, actions: seq<Action>, s: System, gw: Source)
    requires Initial(init, gw) && Run(init, actions, s, gw)
    ensures forall k: ServiceName | Granted(s.world, gw, k) :: Tracked(s, k) || Granted(init.world, gw, k)
    ensures s.refs.Keys !! s.tombstones
    ensures forall t | t in s.refs :: s.refs[t] != {}
  {
    RunKeepsInv(init, actions, s, gw, init.world);
  }

  /** Exactly the indexed targets grant the gateway access. */
  ghost predicate GrantsAreIndex(world: World, refs: Refs, gw: Source) {
    forall k: ServiceName :: Granted(world, gw, k) <==> Indexed(refs, k)
  }

  /** No indexed target is stored under the key of a condemned one. */
  ghost predicate NoSharedKey(s: System) {
    forall t: ServiceName, u: ServiceName | t in s.refs && u in s.tombstones :: Fold(t) != Fold(u)
  }

  /** Whatever grants the gateway access is indexed or condemned. */
  ghost predicate AllTracked(s: System, gw: Source) {
    forall k: ServiceName | Granted(s.world, gw, k) :: Tracked(s, k)
  }

  lemma {:induction false} UntrackedGrantStays(s: System, tombstones': set<ServiceName>, world': World, gw: Source,
                                               err: bool, k: ServiceName)
    requires SyncEffect(s, tombstones', world', gw, err) && Granted(s.world, gw, k) && !Tracked(s, k)
    ensures Granted(world', gw, k) && !Indexed(s.refs, k)
  {
    TrackedIff(s, k);
  }

  lemma {:induction false} TrackedIff(s: System, k: ServiceName)
    ensures Tracked(s, k) <==> Indexed(s.refs, k) || Condemned(s.tombstones, k)
  {
    if Condemned(s.tombstones, k) {
      var u: ServiceName :| u in s.tombstones && Fold(u) == k;
      assert u in s.refs.Keys + s.tombstones;
    }
    if Indexed(s.refs, k) {
      var t: ServiceName :| t in s.refs && Fold(t) == k;
      assert t in s.refs.Keys + s.tombstones;
    }
  }

  /**
   * After a synchronisation without errors nothing is condemned any more, and exactly the indexed
   * targets grant access, if and only if no indexed target shared its key with a condemned one and
   * nothing granted access untracked.
   */
  lemma {:induction false} SyncIsExactIff(s: System, tombstones': set<ServiceName>, world': World, gw: Source)
    requires SyncEffect(s, tombstones', world', gw, false)
    ensures tombstones' == {}
    ensures GrantsAreIndex(world', s.refs, gw) <==> NoSharedKey(s) && AllTracked(s, gw)
  {
    if !AllTracked(s, gw) {
      var k: ServiceName :| Granted(s.world, gw, k) && !Tracked(s, k);
      UntrackedGrantStays(s, tombstones', world', gw, false, k);
    } else if NoSharedKey(s) {
      forall k: ServiceName
        ensures Granted(world', gw, k) <==> Indexed(s.refs, k)
      {
        if Granted(world', gw, k) {
          assert Indexed(s.refs, k) || Tracked(s, k);
          GrantStaysTracked(s, tombstones', world', gw, false, k);
        }
        if Indexed(s.refs, k) {
          var t: ServiceName :| t in s.refs && Fold(t) == k;
          assert Granted(world', gw, Fold(t));
        }
      }
    } else {
      var t: ServiceName, u: ServiceName :| t in s.refs && u in s.tombstones && Fold(t) == Fold(u);
      assert !Granted(world', gw, Fold(u)) && Indexed(s.refs, Fold(t));
    }
  }

  // ----- Deltas rebuild the whole ------------------------------------------------------------------------------------

  /** A source refers to a target exactly when its watcher last delivered the target. */
  ghost predicate Agrees(s: System) {
    forall source: ServiceName, t: ServiceName ::
      source in RefsOf(s.refs, t) <==> source in s.delivered && t in s.delivered[source]
  }

  lemma {:induction false} DeliveryKeepsAgreement(s: System, a: Action)
    requires a.Deliver? && a.source in s.delivered && Agrees(s) && NonEmptyRefs(s.refs)
    ensures Agrees(Next(s, a))
  {
    var prev, s' := s.delivered[a.source], Next(s, a);
    var added, removed := a.targets - prev, prev - a.targets;
    forall source: ServiceName, t: ServiceName
      ensures source in RefsOf(s'.refs, t) <==> source in s'.delivered && t in s'.delivered[source]
    {
      assert RefsOf(s'.refs, t) == AfterDelta(s.refs, a.source, added, removed, t);
      assert source in RefsOf(s.refs, t) <==> source in s.delivered && t in s.delivered[source];
    }
  }

  /** Changing the services keeps the agreement if and only if no dropped watcher had delivered a target. */
  lemma {:induction false} ServicesKeepAgreementIff(s: System, services: set<ServiceName>)
    requires Agrees(s)
    ensures Agrees(Next(s, SetServices(services))) <==>
            forall x | x in s.delivered && x !in services :: s.delivered[x] == {}
  {
    var s' := Next(s, SetServices(services));
    if forall x | x in s.delivered && x !in services :: s.delivered[x] == {} {
      forall source: ServiceName, t: ServiceName
        ensures source in RefsOf(s'.refs, t) <==> source in s'.delivered && t in s'.delivered[source]
      {
        assert source in RefsOf(s.refs, t) <==> source in s.delivered && t in s.delivered[source];
      }
    } else {
      var x :| x in s.delivered && x !in services && s.delivered[x] != {};
      var t :| t in s.delivered[x];
      assert x in RefsOf(s.refs, t);
      assert x in RefsOf(s'.refs, t) && x !in s'.delivered;
    }
  }

  /** No action of the run drops a service whose watcher has delivered targets. */
  ghost predicate NoDrops(s: System, actions: seq<Action>, gw: Source)
    decreases |actions|
  {
    actions == [] ||
    (Enabled(s, actions[0], gw) &&
     (actions[0].SetServices? ==> forall x | x in s.delivered && x !in actions[0].services :: s.delivered[x] == {}) &&
     NoDrops(Next(s, actions[0]), actions[1..], gw))
  }

  lemma {:induction false} RunKeepsAgreement(s: System, actions: seq<Action>, s': System, gw: Source)
    requires Inv(s, gw, s.world) && Agrees(s) && Run(s, actions, s', gw) && NoDrops(s, actions, gw)
    ensures Agrees(s')
    decreases |actions|
  {
    if actions != [] {
      var a := actions[0];
      ActionKeepsInv(s, a, gw, s.world);
      if a.Deliver? {
        DeliveryKeepsAgreement(s, a);
      } else if a.SetServices? {
        ServicesKeepAgreementIff(s, a.services);
      }
      RunKeepsAgreement(Next(s, a), actions[1..], s', gw);
    }
  }

  lemma {:induction false} InitialHolds(init: System, gw: Source)
    requires Initial(init, gw)
    ensures Inv(init, gw, init.world) && Agrees(init)
  {}

  /** The deltas delivered one by one add up to the last target set of every watcher. */
  lemma {:induction false} DeltasRebuildTheWhole(init: System, actions: seq<Action>, s: System, gw: Source,
                                                 source: ServiceName, t: ServiceName)
    requires Initial(init, gw) && Run(init, actions, s, gw) && NoDrops(init, actions, gw)
    ensures t in s.refs && source in s.refs[t] <==> source in s.delivered && t in s.delivered[source]
  {
    InitialHolds(init, gw);
    RunKeepsAgreement(init, actions, s, gw);
    assert source in RefsOf(s.refs, t) <==> source in s.delivered && t in s.delivered[source];
  }

  /** Some watcher last delivered a target that is stored under key k. */
  ghost predicate Delivered(s: System, k: ServiceName) {
    exists source: ServiceName, t: ServiceName :: source in s.delivered && t in s.delivered[source] && Fold(t) == k
  }

  /**
   * End to end: after such a run and a synchronisation without errors, the gateway has access to
   * exactly the targets that the watched discovery chains were last seen to lead to, if and only if no
   * target shared its key with a condemned one and nothing granted access untracked.
   */
  lemma {:induction false} GrantsFollowTheChainsIff(init: System, actions: seq<Action>, s: System, gw: Source,
                                                    tombstones': set<ServiceName>, world': World)
    requires Initial(init, gw) && Run(init, actions, s, gw) && NoDrops(init, actions, gw)
    requires SyncEffect(s, tombstones', world', gw, false)
    ensures (forall k: ServiceName :: Granted(world', gw, k) <==> Delivered(s, k)) <==>
            NoSharedKey(s) && AllTracked(s, gw)
  {
    SyncIsExactIff(s, tombstones', world', gw);
    forall k: ServiceName
      ensures Indexed(s.refs, k) <==> Delivered(s, k)
    {
      IndexedIffDelivered(init, actions, s, gw, k);
    }
  }

  lemma {:induction false} IndexedIffDelivered(init: System, actions: seq<Action>, s: System, gw: Source,
                                               k: ServiceName)
    requires Initial(init, gw) && Run(init, actions, s, gw) && NoDrops(init, actions, gw)
    ensures Indexed(s.refs, k) <==> Delivered(s, k)
  {
    RunKeepsInv(init, actions, s, gw, init.world);
    if Indexed(s.refs, k) {
      var t: ServiceName :| t in s.refs && Fold(t) == k;
      var source :| source in s.refs[t];
      DeltasRebuildTheWhole(init, actions, s, gw, source, t);
    }
    if Delivered(s, k) {
      var source: ServiceName, t: ServiceName :| source in s.delivered && t in s.delivered[source] && Fold(t) == k;
      DeltasRebuildTheWhole(init, actions, s, gw, source, t);
    }
  }
}
