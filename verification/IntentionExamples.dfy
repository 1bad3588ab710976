// Runs of the intentions reconciler after which a synchronisation without errors does not leave the grants
// that the discovery chains call for (internal/consul/intentions.go).

module IntentionExamples {
  import opened Wrappers
  import opened ServiceNames
  import opened IntentionSpec
  import opened IntentionRuns

  /** A service is watched and its chain leads to t. */
  function WatchedFor(init: System, x: ServiceName, t: ServiceName): System {
    init.(refs := map[t := {x}], delivered := map[x := {t}])
  }

  lemma {:induction false} ReachesWatched(init: System, gw: Source, x: ServiceName, t: ServiceName)
    requires Initial(init, gw)
    ensures Next(Next(init, SetServices({x})), Deliver(x, {t})) == WatchedFor(init, x, t)
  {
    var s1 := Next(init, SetServices({x}));
    assert s1.delivered == map[x := {}];
    assert {t} - {} == {t} && {} - {t} == {};
    assert AfterDelta(map[], x, {t}, {}, t) == {x};
    assert HandledRefs(map[], x, {t}, {}) == map[t := {x}];
    assert HandledTombstones(map[], {}, x, {t}, {}) == {};
    assert s1.delivered[x := {t}] == map[x := {t}];
  }

  lemma {:induction false} RunOfThree(s: System, a: Action, b: Action, c: Action, gw: Source)
    requires Enabled(s, a, gw) && Enabled(Next(s, a), b, gw) && Enabled(Next(Next(s, a), b), c, gw)
    ensures Run(s, [a, b, c], Next(Next(Next(s, a), b), c), gw)
  {
    var s1, s2 := Next(s, a), Next(Next(s, a), b);
    var s3 := Next(s2, c);
    assert [a, b, c][1..] == [b, c] && [b, c][1..] == [c] && [c][1..] == [];
    assert Run(s3, [], s3, gw) && Run(s2, [c], s3, gw) && Run(s1, [b, c], s3, gw);
  }

  // ----- Two spellings of the default namespace --------------------------------------------------------------

  /** The chain first names the target in the namespace "default", then in "". */
  function Respelled(init: System, x: ServiceName, name: string): System {
    System(map[ServiceName(name, "") := {x}], {ServiceName(name, "default")}, map[x := {ServiceName(name, "")}],
           init.world)
  }

  lemma {:induction false} ReachesRespelled(init: System, gw: Source, x: ServiceName, name: string)
    requires Initial(init, gw)
    ensures Next(WatchedFor(init, x, ServiceName(name, "default")), Deliver(x, {ServiceName(name, "")})) ==
            Respelled(init, x, name)
  {
    var was, now := ServiceName(name, "default"), ServiceName(name, "");
    assert |was.namespace| != |now.namespace|;
    var s := WatchedFor(init, x, was);
    assert {now} - {was} == {now} && {was} - {now} == {was};
    assert AfterDelta(s.refs, x, {now}, {was}, was) == {} && AfterDelta(s.refs, x, {now}, {was}, now) == {x};
    assert HandledRefs(s.refs, x, {now}, {was}) == map[now := {x}];
    assert HandledTombstones(s.refs, {}, x, {now}, {was}) == {was};
  }

  /** A target that changes its spelling loses its grant in the next synchronisation, which reports no error. */
  lemma {:induction false} RespelledTargetLosesItsGrant(init: System, gw: Source, x: ServiceName, name: string)
    returns (actions: seq<Action>, s: System)
    requires Initial(init, gw)
    ensures Run(init, actions, s, gw) && ServiceName(name, "") in s.refs && !NoSharedKey(s)
    ensures forall t: set<ServiceName>, w: World | SyncEffect(s, t, w, gw, false) ::
              !Granted(w, gw, ServiceName(name, "")) && !GrantsAreIndex(w, s.refs, gw)
    ensures !Granted(init.world, gw, ServiceName(name, "")) ==> SyncEffect(s, {}, init.world, gw, false)
  {
    var was, now := ServiceName(name, "default"), ServiceName(name, "");
    assert Fold(was) == now && Fold(now) == now;
    ReachesWatched(init, gw, x, was);
    ReachesRespelled(init, gw, x, name);
    actions, s := [SetServices({x}), Deliver(x, {was}), Deliver(x, {now})], Respelled(init, x, name);
    RunOfThree(init, SetServices({x}), Deliver(x, {was}), Deliver(x, {now}), gw);
    assert now in s.refs && was in s.tombstones;
    assert Condemned(s.tombstones, now) && Indexed(s.refs, now);
    forall t: set<ServiceName>, w: World | SyncEffect(s, t, w, gw, false)
      ensures !Granted(w, gw, now) && !GrantsAreIndex(w, s.refs, gw)
    {
      assert was in s.tombstones - t;
    }
  }

  // ----- A dropped service --------------------------------------------------------------------------------------

  /** A service dropped from the ingress keeps its targets indexed, and granted, though no watcher leads to them. */
  lemma {:induction false} DroppedServiceKeepsItsGrants(init: System, gw: Source, x: ServiceName, t: ServiceName)
    returns (actions: seq<Action>, s: System)
    requires Initial(init, gw)
    ensures Run(init, actions, s, gw) && !Agrees(s) && s.delivered == map[]
    ensures forall ts: set<ServiceName>, w: World | SyncEffect(s, ts, w, gw, false) ::
              Granted(w, gw, Fold(t)) && !Delivered(s, Fold(t))
    ensures exists w: World :: SyncEffect(s, {}, w, gw, false)
  {
    ReachesWatched(init, gw, x, t);
    s := WatchedFor(init, x, t).(delivered := map[]);
    actions := [SetServices({x}), Deliver(x, {t}), SetServices({})];
    assert Next(WatchedFor(init, x, t), SetServices({})) == s;
    RunOfThree(init, SetServices({x}), Deliver(x, {t}), SetServices({}), gw);
    assert x in RefsOf(s.refs, t);
    forall ts: set<ServiceName>, w: World | SyncEffect(s, ts, w, gw, false)
      ensures Granted(w, gw, Fold(t))
    {
      assert t in s.refs && !Condemned(s.tombstones, Fold(t));
    }
    var w := Granting(init.world, gw, Fold(t));
    GrantingGrants(init.world, gw, Fold(t));
    assert Indexed(s.refs, Fold(t));
    assert SyncEffect(s, {}, w, gw, false);
  }

  function Granting(w: World, gw: Source, k: ServiceName): World {
    if Modifies(SourcesAt(w, k), gw, true) then Stored(w, k, Updated(SourcesAt(w, k), gw, true)) else w
  }

  lemma {:induction false} GrantingGrants(w: World, gw: Source, k: ServiceName)
    requires WorldOk(w, gw)
    ensures WorldOk(Granting(w, gw, k), gw) && Effect(w, Granting(w, gw, k), gw, k, true, false)
  {
    OwnAtFirst(SourcesAt(w, k), gw);
    if Modifies(SourcesAt(w, k), gw, true) {
      StoredEffect(w, gw, k, true);
    }
  }

  // ----- A restarted reconciler -----------------------------------------------------------------------------------

  /** What an earlier reconciler granted stays granted, and untracked, through every synchronisation. */
  lemma {:induction false} OldGrantsStay(init: System, gw: Source, k: ServiceName)
    requires Initial(init, gw) && Granted(init.world, gw, k)
    ensures forall t: set<ServiceName>, w: World | SyncEffect(init, t, w, gw, false) ::
              Granted(w, gw, k) && !GrantsAreIndex(w, init.refs, gw)
    ensures SyncEffect(init, {}, init.world, gw, false)
  {
    TrackedIff(init, k);
    forall t: set<ServiceName>, w: World | SyncEffect(init, t, w, gw, false)
      ensures Granted(w, gw, k) && !GrantsAreIndex(w, init.refs, gw)
    {
      UntrackedGrantStays(init, t, w, gw, false, k);
    }
  }

  // ----- An intention that others add to before it is deleted ------------------------------------------------

  lemma {:induction false} OneMoreSource(gw: Source, other: Source)
    requires !SourceMatches(other, gw)
    ensures Own([gw], gw) == [gw] && Others([gw], gw) == []
    ensures Own([gw, other], gw) == [gw] && Others([gw, other], gw) == [other]
    ensures Modifies([gw], gw, false) && Updated([gw], gw, false) == []
  {
    OwnOfOne(gw, gw);
    OwnOfOne(other, gw);
    OwnConcat([gw], [other], gw);
    assert [gw] + [other] == [gw, other];
  }

  /** An intention that is stored alone. */
  function Only(k: ServiceName, ss: seq<Source>, clock: nat): World { World(map[k := Intention(ss, clock)], clock) }

  lemma {:induction false} OnlyIsRewritten(gw: Source, k: ServiceName, ss: seq<Source>, ss': seq<Source>)
    requires Own(ss, gw) == Own(ss', gw) == [gw]
    ensures WorldOk(Only(k, ss, 1), gw) && Foreign(Only(k, ss, 1), Only(k, ss, 1), gw)
    ensures Foreign(Only(k, ss, 1), Only(k, ss', 2), gw)
  {}

  /**
   * The gateway's source is to be removed and is read as the only one; others add theirs; the delete, which
   * is not conditional, takes effect and takes theirs away.
   */
  lemma {:induction false} RacedDeleteLosesOthers(gw: Source, other: Source, k: ServiceName)
    returns (w: World, c: Change)
    requires !SourceMatches(other, gw)
    ensures WorldOk(w, gw) && History(w, [c], c.after, gw) && c.key == k && !c.add
    ensures SourcesAt(c.read, k) == [gw] && SourcesAt(c.before, k) == [gw, other] && SourcesAt(c.after, k) == []
    ensures Raced(c, gw) && !LosesNothing(Events([c]), gw)
  {
    var now := Only(k, [gw, other], 2);
    w := Only(k, [gw], 1);
    c := Change(k, false, Deed.Delete, w, now, Deleted(now, k));
    OneMoreSource(gw, other);
    OnlyIsRewritten(gw, k, [gw], [gw, other]);
    RacedIsLost(w, c, gw);
  }

  lemma {:induction false} RacedIsLost(w: World, c: Change, gw: Source)
    requires Accounted(w, c, gw) && Raced(c, gw) && c.after != c.before
    ensures History(w, [c], c.after, gw) && !LosesNothing(Events([c]), gw)
  {
    LinkOfOne(w, c, AccountedFor(gw));
    HistoryKeepsOthersIff(w, [c], c.after, gw);
    NotNoneRaced(c, gw);
  }

  lemma {:induction false} LinkOfOne(w: World, c: Change, ok: (World, Change) -> bool)
    requires ok(w, c)
    ensures Linked(w, [c], c.after, ok)
  {}

  lemma {:induction false} NotNoneRaced(c: Change, gw: Source)
    requires Raced(c, gw) && c.after != c.before
    ensures !NoneRaced([c], gw)
  {
    assert [c][0] == c;
  }
}
