// The status of a route, merged with what other controllers report
// (internal/k8s/reconciler/status/route.go and equality.go).

module RouteStatus {
  import opened Sorting

  datatype Condition = Condition(kind: string, status: string, generation: int, time: int, reason: string,
                                 message: string)

  /** One entry of a route's status; ref is the JSON text of the parent reference. */
  datatype Parent = Parent(ref: string, controller: string, conditions: seq<Condition>)

  datatype Outcome = Outcome(status: string, reason: string, message: string)

  /** What this controller has found out about a route with respect to one parent. */
  datatype Finding = Finding(accepted: Outcome, resolvedRefs: Outcome)

  /** The clock may advance between any two conditions that are written. */
  type Clock = (string, string) -> int

  // ----- Order -----------------------------------------------------------------------------------------------

  datatype Head = Head(ref: string, controller: string)

  function HeadOf(p: Parent): Head { Head(p.ref, p.controller) }

  /** The orders of the JSON texts of conditions and of parents. */
  datatype Order = Order(condition: (Condition, Condition) -> bool, parent: (Parent, Parent) -> bool,
                         kind: (string, string) -> bool, head: (Head, Head) -> bool)

  /**
   * Texts are totally ordered and field by field: the type decides between conditions, the reference
   * and the controller decide between parents, unless they agree.
   */
  ghost predicate JsonLike(o: Order) {
    && StrictTotal(o.condition) && StrictTotal(o.parent)
    && (forall a: Condition, b: Condition | a.kind != b.kind :: o.condition(a, b) <==> o.kind(a.kind, b.kind))
    && (forall p: Parent, q: Parent | HeadOf(p) != HeadOf(q) :: o.parent(p, q) <==> o.head(HeadOf(p), HeadOf(q)))
  }

  // ----- Merging ---------------------------------------------------------------------------------------------

  function Canon(o: Order, p: Parent): Parent {
    p.(conditions := SortBy(o.condition, p.conditions))
  }

  function CanonAll(o: Order, ps: seq<Parent>): (r: seq<Parent>)
    ensures |r| == |ps| && forall i | 0 <= i < |ps| :: r[i] == Canon(o, ps[i])
  {
    Map(p => Canon(o, p), ps)
  }

  function SortParents(o: Order, ps: seq<Parent>): seq<Parent> {
    SortBy(o.parent, CanonAll(o, ps))
  }

  function ConditionOf(kind: string, f: Outcome, generation: int, time: int): Condition {
    Condition(kind, f.status, generation, time, f.reason, f.message)
  }

  const ACCEPTED := "Accepted"
  const RESOLVED_REFS := "ResolvedRefs"

  function Own(f: Finding, controller: string, generation: int, now: Clock, ref: string): Parent {
    Parent(ref, controller, [ConditionOf(ACCEPTED, f.accepted, generation, now(ref, ACCEPTED)),
                             ConditionOf(RESOLVED_REFS, f.resolvedRefs, generation, now(ref, RESOLVED_REFS))])
  }

  /** order lists the keys of the findings, each once. */
  ghost predicate Visits(order: seq<string>, findings: map<string, Finding>) {
    && (forall k | 0 <= k < |order| :: order[k] in findings)
    && (forall j, k | 0 <= j < k < |order| :: order[j] != order[k])
    && (forall ref | ref in findings :: ref in order)
  }

  datatype Report = Report(findings: map<string, Finding>, controller: string, generation: int)

  function OwnOf(r: Report, now: Clock, ref: string): Parent
  {
    if ref in r.findings then Own(r.findings[ref], r.controller, r.generation, now, ref)
    else Parent(ref, r.controller, [])
  }

  function OwnAll(r: Report, now: Clock, order: seq<string>): (own: seq<Parent>)
    ensures |own| == |order| && forall i | 0 <= i < |order| :: own[i] == OwnOf(r, now, order[i])
  {
    Map(ref => OwnOf(r, now, ref), order)
  }

  /** The entries of the named controller (mine) or of all others. */
  function Of(ps: seq<Parent>, controller: string, mine: bool): seq<Parent> {
    if ps == [] then []
    else Of(ps[..|ps| - 1], controller, mine) +
         (if (ps[|ps| - 1].controller == controller) == mine then [ps[|ps| - 1]] else [])
  }

  function Merge(o: Order, ps: seq<Parent>, r: Report, now: Clock, order: seq<string>): seq<Parent> {
    SortParents(o, Of(ps, r.controller, false) + OwnAll(r, now, order))
  }

  // ----- Entries by controller --------------------------------------------------------------------------------

  lemma {:induction false} OfCount(ps: seq<Parent>, c: string, mine: bool, x: Parent)
    ensures multiset(Of(ps, c, mine))[x] == if (x.controller == c) == mine then multiset(ps)[x] else 0
  {
    if ps != [] {
      OfCount(ps[..|ps| - 1], c, mine, x);
      AllButLast(ps);
    }
  }

  lemma {:induction false} OfSplit(ps: seq<Parent>, c: string)
    ensures multiset(ps) == multiset(Of(ps, c, true)) + multiset(Of(ps, c, false))
  {
    forall x: Parent
      ensures multiset(ps)[x] == multiset(Of(ps, c, true))[x] + multiset(Of(ps, c, false))[x]
    {
      OfCount(ps, c, true, x);
      OfCount(ps, c, false, x);
    }
  }

  lemma {:induction false} OfElements(a: seq<Parent>, b: seq<Parent>, c: string, mine: bool)
    requires multiset(a) == multiset(b)
    ensures multiset(Of(a, c, mine)) == multiset(Of(b, c, mine))
  {
    forall x: Parent
      ensures multiset(Of(a, c, mine))[x] == multiset(Of(b, c, mine))[x]
    {
      OfCount(a, c, mine, x);
      OfCount(b, c, mine, x);
    }
  }

  lemma {:induction false} OfMembers(ps: seq<Parent>, c: string, mine: bool)
    ensures forall x :: x in Of(ps, c, mine) <==> x in ps && ((x.controller == c) == mine)
  {
    forall x: Parent
      ensures x in Of(ps, c, mine) <==> x in ps && ((x.controller == c) == mine)
    {
      OfCount(ps, c, mine, x);
      assert x in Of(ps, c, mine) <==> x in multiset(Of(ps, c, mine));
      assert x in ps <==> x in multiset(ps);
    }
  }

  lemma {:induction false} OfMap(f: Parent -> Parent, ps: seq<Parent>, c: string, mine: bool)
    requires forall p | p in ps :: f(p).controller == p.controller
    ensures Of(Map(f, ps), c, mine) == Map(f, Of(ps, c, mine))
  {
    if ps != [] {
      var init := ps[..|ps| - 1];
      OfMap(f, init, c, mine);
      assert Map(f, ps)[..|ps| - 1] == Map(f, init);
      assert ps[|ps| - 1] in ps;
    }
  }

  lemma {:induction false} OfConcat(a: seq<Parent>, b: seq<Parent>, c: string, mine: bool)
    ensures Of(a + b, c, mine) == Of(a, c, mine) + Of(b, c, mine)
  {
    if b == [] {
      assert a + b == a;
    } else {
      OfConcat(a, b[..|b| - 1], c, mine);
      assert (a + b)[..|a + b| - 1] == a + b[..|b| - 1];
    }
  }

  lemma {:induction false} OfAll(ps: seq<Parent>, c: string, mine: bool)
    requires forall p | p in ps :: (p.controller == c) == mine
    ensures Of(ps, c, mine) == ps && Of(ps, c, !mine) == []
  {
    if ps != [] {
      OfAll(ps[..|ps| - 1], c, mine);
      assert ps[|ps| - 1] in ps;
    }
  }

  /** Of the others and some entries of mine, mine are those entries. */
  lemma {:induction false} OfJoined(ps: seq<Parent>, own: seq<Parent>, c: string)
    requires forall p | p in own :: p.controller == c
    ensures Of(Of(ps, c, false) + own, c, true) == own
    ensures Of(Of(ps, c, false) + own, c, false) == Of(ps, c, false)
  {
    var others := Of(ps, c, false);
    OfMembers(ps, c, false);
    OfAll(others, c, false);
    OfAll(own, c, true);
    OfConcat(others, own, c, true);
    OfConcat(others, own, c, false);
  }

  // ----- The order of iteration does not matter -----------------------------------------------------------------

  lemma {:induction false} DistinctCount(order: seq<string>, x: string)
    requires forall j, k | 0 <= j < k < |order| :: order[j] != order[k]
    ensures multiset(order)[x] == if x in order then 1 else 0
  {
    if order != [] {
      var init, last := order[..|order| - 1], order[|order| - 1];
      DistinctCount(init, x);
      AllButLast(order);
      assert x in order <==> x in init || x == last;
    }
  }

  lemma {:induction false} VisitsKeys(order: seq<string>, findings: map<string, Finding>)
    requires Visits(order, findings)
    ensures multiset(order) == multiset(findings.Keys)
  {
    forall x: string
      ensures multiset(order)[x] == multiset(findings.Keys)[x]
    {
      DistinctCount(order, x);
    }
  }

  lemma {:induction false} MergedElements(o: Order, ps: seq<Parent>, r: Report, now: Clock, order: seq<string>)
    ensures multiset(Merge(o, ps, r, now, order)) ==
            multiset(CanonAll(o, Of(ps, r.controller, false))) + multiset(CanonAll(o, OwnAll(r, now, order)))
  {
    var others, own := Of(ps, r.controller, false), OwnAll(r, now, order);
    SortElements(o.parent, CanonAll(o, others + own));
    assert CanonAll(o, others + own) == CanonAll(o, others) + CanonAll(o, own);
  }

  lemma {:induction false} CanonElements(o: Order, ps: seq<Parent>, qs: seq<Parent>)
    requires multiset(ps) == multiset(qs)
    ensures multiset(CanonAll(o, ps)) == multiset(CanonAll(o, qs))
  {
    var f := p => Canon(o, p);
    MapElements(f, ps, qs);
    assert CanonAll(o, ps) == Map(f, ps) && CanonAll(o, qs) == Map(f, qs);
  }

  lemma {:induction false} OwnElements(r: Report, now: Clock, order: seq<string>, order': seq<string>)
    requires multiset(order) == multiset(order')
    ensures multiset(OwnAll(r, now, order)) == multiset(OwnAll(r, now, order'))
  {
    var f := ref => OwnOf(r, now, ref);
    MapElements(f, order, order');
    assert OwnAll(r, now, order) == Map(f, order) && OwnAll(r, now, order') == Map(f, order');
  }

  /** For any order of the map's keys and of the entries found in the status, the result is the same. */
  lemma {:induction false} MergeIsCanonical(o: Order, ps: seq<Parent>, ps': seq<Parent>, r: Report, now: Clock,
                                            order: seq<string>, order': seq<string>)
    requires JsonLike(o) && multiset(ps) == multiset(ps')
    requires Visits(order, r.findings) && Visits(order', r.findings)
    ensures Merge(o, ps, r, now, order) == Merge(o, ps', r, now, order')
  {
    VisitsKeys(order, r.findings);
    VisitsKeys(order', r.findings);
    OfElements(ps, ps', r.controller, false);
    CanonElements(o, Of(ps, r.controller, false), Of(ps', r.controller, false));
    OwnElements(r, now, order, order');
    CanonElements(o, OwnAll(r, now, order), OwnAll(r, now, order'));
    MergedElements(o, ps, r, now, order);
    MergedElements(o, ps', r, now, order');
    SortSorts(o.parent, CanonAll(o, Of(ps, r.controller, false) + OwnAll(r, now, order)));
    SortSorts(o.parent, CanonAll(o, Of(ps', r.controller, false) + OwnAll(r, now, order')));
    SortedUnique(o.parent, Merge(o, ps, r, now, order), Merge(o, ps', r, now, order'));
  }

  /**
   * Entries of other controllers are all kept, as often as they were there, with their conditions
   * sorted; of this controller's entries exactly those of the findings remain, each once.
   */
  lemma {:induction false} MergeKeepsOthersReplacesOwn(o: Order, ps: seq<Parent>, r: Report, now: Clock,
                                                       order: seq<string>, x: Parent)
    requires Visits(order, r.findings)
    ensures x.controller != r.controller ==> multiset(Merge(o, ps, r, now, order))[x] == multiset(CanonAll(o, ps))[x]
    ensures x.controller == r.controller ==>
              multiset(Merge(o, ps, r, now, order))[x] ==
              if x.ref in r.findings && x == Canon(o, OwnOf(r, now, x.ref)) then 1 else 0
  {
    var c, own := r.controller, CanonAll(o, OwnAll(r, now, order));
    MergedElements(o, ps, r, now, order);
    var f := p => Canon(o, p);
    OfMap(f, ps, c, false);
    assert Map(f, ps) == CanonAll(o, ps) && Map(f, Of(ps, c, false)) == CanonAll(o, Of(ps, c, false));
    OfCount(CanonAll(o, ps), c, false, x);
    OwnCount(o, r, now, order, x);
  }

  lemma {:induction false} OwnCount(o: Order, r: Report, now: Clock, order: seq<string>, x: Parent)
    requires forall j, k | 0 <= j < k < |order| :: order[j] != order[k]
    ensures multiset(CanonAll(o, OwnAll(r, now, order)))[x] ==
            if x.ref in order && x == Canon(o, OwnOf(r, now, x.ref)) then 1 else 0
  {
    if order != [] {
      var init, last, own := order[..|order| - 1], order[|order| - 1], CanonAll(o, OwnAll(r, now, order));
      OwnCount(o, r, now, init, x);
      AllButLast(own);
      assert own[..|own| - 1] == CanonAll(o, OwnAll(r, now, init));
      assert x.ref in order <==> x.ref in init || x.ref == last;
    }
  }

  // ----- When is an update needed? --------------------------------------------------------------------------------

  function Untimed(c: Condition): Condition { c.(time := 0) }

  function UntimedAll(cs: seq<Condition>): (r: seq<Condition>)
    ensures |r| == |cs| && forall i | 0 <= i < |cs| :: r[i] == Untimed(cs[i])
  {
    Map(c => Untimed(c), cs)
  }

  function UntimedParent(p: Parent): Parent {
    p.(conditions := UntimedAll(p.conditions))
  }

  /** What matters about an entry: neither the order of its conditions nor their timestamps. */
  function Content(o: Order, p: Parent): Parent {
    UntimedParent(Canon(o, p))
  }

  function AtZero(): Clock { (ref, kind) => 0 }

  /**
   * This controller's entries have exactly the references of the findings, each once, and each says
   * what the finding for its reference says.
   */
  ghost predicate UpToDate(o: Order, ps: seq<Parent>, r: Report) {
    var mine := Of(ps, r.controller, true);
    && multiset(Refs(mine)) == multiset(r.findings.Keys)
    && forall p | p in mine :: Content(o, p) == Content(o, OwnOf(r, AtZero(), p.ref))
  }

  function Refs(ps: seq<Parent>): (refs: seq<string>)
    ensures |refs| == |ps| && forall i | 0 <= i < |ps| :: refs[i] == ps[i].ref
  {
    Map((p: Parent) => p.ref, ps)
  }

  lemma {:induction false} SortTwo(o: Order, a: Condition, b: Condition)
    ensures SortBy(o.condition, [a, b]) == if o.condition(b, a) then [b, a] else [a, b]
  {
    assert [a, b][..1] == [a] && [a][..0] == [];
    assert SortBy(o.condition, [a]) == Insert(o.condition, a, SortBy(o.condition, [a][..0])) == [a];
    assert SortBy(o.condition, [a, b]) == Insert(o.condition, b, [a]);
  }

  /** The clock does not show in the content. */
  lemma {:induction false} ContentIgnoresClock(o: Order, r: Report, now: Clock, now': Clock, ref: string)
    requires JsonLike(o)
    ensures Content(o, OwnOf(r, now, ref)) == Content(o, OwnOf(r, now', ref))
  {
    if ref in r.findings {
      var p, p' := OwnOf(r, now, ref), OwnOf(r, now', ref);
      var a, b, a', b' := p.conditions[0], p.conditions[1], p'.conditions[0], p'.conditions[1];
      assert |a.kind| != |b.kind|;
      assert p.conditions == [a, b] && p'.conditions == [a', b'];
      SortedAlike(o, a, b, a', b');
      assert UntimedAll(Canon(o, p).conditions) == UntimedAll(Canon(o, p').conditions);
    }
  }

  /** Conditions of different types are ordered by their types, whatever the time. */
  lemma {:induction false} SortedAlike(o: Order, a: Condition, b: Condition, a': Condition, b': Condition)
    requires JsonLike(o) && a.kind != b.kind && Untimed(a) == Untimed(a') && Untimed(b) == Untimed(b')
    ensures UntimedAll(SortBy(o.condition, [a, b])) == UntimedAll(SortBy(o.condition, [a', b']))
  {
    SortTwo(o, a, b);
    SortTwo(o, a', b');
    assert a.kind == Untimed(a).kind == a'.kind && b.kind == Untimed(b).kind == b'.kind;
    assert o.condition(b, a) == o.condition(b', a');
  }

  /** The entry with this controller's present timestamps. */
  function Retime(o: Order, r: Report, now: Clock, p: Parent): Parent {
    if p.controller == r.controller then Canon(o, OwnOf(r, now, p.ref)) else p
  }

  function Retimer(o: Order, r: Report, now: Clock): Parent -> Parent { p => Retime(o, r, now, p) }

  function CanonRetimer(o: Order, r: Report, now: Clock): Parent -> Parent { p => Retime(o, r, now, Canon(o, p)) }

  lemma {:induction false} RetimedSorted(o: Order, r: Report, now: Clock, s: seq<Parent>)
    requires JsonLike(o) && SortedBy(o.parent, s)
    ensures SortedBy(o.parent, Map(Retimer(o, r, now), s))
  {
    var t := Map(Retimer(o, r, now), s);
    forall i, j | 0 <= i < j < |t|
      ensures !o.parent(t[j], t[i])
    {
      assert HeadOf(t[i]) == HeadOf(s[i]) && HeadOf(t[j]) == HeadOf(s[j]);
      assert !o.parent(s[j], s[i]);
    }
  }

  lemma {:induction false} RetimedMine(o: Order, r: Report, now: Clock, mine: seq<Parent>, order: seq<string>)
    requires forall p | p in mine :: p.controller == r.controller
    requires multiset(Refs(mine)) == multiset(order)
    ensures multiset(Map(CanonRetimer(o, r, now), mine)) == multiset(CanonAll(o, OwnAll(r, now, order)))
  {
    OwnElements(r, now, Refs(mine), order);
    CanonElements(o, OwnAll(r, now, Refs(mine)), OwnAll(r, now, order));
    forall i | 0 <= i < |mine|
      ensures Retime(o, r, now, Canon(o, mine[i])) == CanonAll(o, OwnAll(r, now, Refs(mine)))[i]
    {
      assert mine[i] in mine;
    }
    assert Map(CanonRetimer(o, r, now), mine) == CanonAll(o, OwnAll(r, now, Refs(mine)));
  }

  lemma {:induction false} RetimedOthers(o: Order, r: Report, now: Clock, others: seq<Parent>)
    requires forall p | p in others :: p.controller != r.controller
    ensures Map(CanonRetimer(o, r, now), others) == CanonAll(o, others)
  {
    forall i | 0 <= i < |others|
      ensures Retime(o, r, now, Canon(o, others[i])) == Canon(o, others[i])
    {
      assert others[i] in others;
    }
  }

  lemma {:induction false} SplitImage(f: Parent -> Parent, ps: seq<Parent>, c: string)
    ensures multiset(Map(f, ps)) == multiset(Map(f, Of(ps, c, false))) + multiset(Map(f, Of(ps, c, true)))
  {
    var mine, others := Of(ps, c, true), Of(ps, c, false);
    OfSplit(ps, c);
    MapElements(f, ps, others + mine);
    assert Map(f, others + mine) == Map(f, others) + Map(f, mine);
  }

  lemma {:induction false} SortedImage(o: Order, g: Parent -> Parent, f: Parent -> Parent, ps: seq<Parent>)
    requires forall p :: f(p) == g(Canon(o, p))
    ensures multiset(Map(g, SortParents(o, ps))) == multiset(Map(f, ps))
  {
    SortElements(o.parent, CanonAll(o, ps));
    MapElements(g, SortParents(o, ps), CanonAll(o, ps));
    assert Map(g, CanonAll(o, ps)) == Map(f, ps);
  }

  lemma {:induction false} RetimedParts(o: Order, ps: seq<Parent>, r: Report, now: Clock, order: seq<string>)
    requires multiset(Refs(Of(ps, r.controller, true))) == multiset(order)
    ensures multiset(Map(CanonRetimer(o, r, now), Of(ps, r.controller, true))) ==
            multiset(CanonAll(o, OwnAll(r, now, order)))
    ensures Map(CanonRetimer(o, r, now), Of(ps, r.controller, false)) == CanonAll(o, Of(ps, r.controller, false))
  {
    OfMembers(ps, r.controller, true);
    OfMembers(ps, r.controller, false);
    RetimedMine(o, r, now, Of(ps, r.controller, true), order);
    RetimedOthers(o, r, now, Of(ps, r.controller, false));
  }

  /** The sorted status with new timestamps has the elements of the merged one. */
  lemma {:induction false} RetimedElements(o: Order, ps: seq<Parent>, r: Report, now: Clock, order: seq<string>)
    requires multiset(Refs(Of(ps, r.controller, true))) == multiset(order)
    ensures multiset(Map(Retimer(o, r, now), SortParents(o, ps))) == multiset(Merge(o, ps, r, now, order))
  {
    SortedImage(o, Retimer(o, r, now), CanonRetimer(o, r, now), ps);
    SplitImage(CanonRetimer(o, r, now), ps, r.controller);
    RetimedParts(o, ps, r, now, order);
    MergedElements(o, ps, r, now, order);
  }

  /** RouteStatusEqual: the same entries in the same order, timestamps aside. */
  ghost predicate SameStatus(a: seq<Parent>, b: seq<Parent>) {
    |a| == |b| && forall i | 0 <= i < |a| :: UntimedParent(a[i]) == UntimedParent(b[i])
  }

  lemma {:induction false} UpToDateNeedsNoUpdate(o: Order, ps: seq<Parent>, r: Report, now: Clock, order: seq<string>)
    requires JsonLike(o) && Visits(order, r.findings) && UpToDate(o, ps, r)
    ensures SameStatus(SortParents(o, ps), Merge(o, ps, r, now, order))
  {
    var g, s, t := Retimer(o, r, now), SortParents(o, ps), Merge(o, ps, r, now, order);
    VisitsKeys(order, r.findings);
    RetimedElements(o, ps, r, now, order);
    SortSorts(o.parent, CanonAll(o, ps));
    SortSorts(o.parent, CanonAll(o, Of(ps, r.controller, false) + OwnAll(r, now, order)));
    RetimedSorted(o, r, now, s);
    SortedUnique(o.parent, Map(g, s), t);
    forall i | 0 <= i < |s|
      ensures UntimedParent(s[i]) == UntimedParent(t[i])
    {
      assert t[i] == Map(g, s)[i] == Retime(o, r, now, s[i]);
      RetimeKeepsContent(o, ps, r, now, s[i]);
    }
  }

  lemma {:induction false} RetimeKeepsContent(o: Order, ps: seq<Parent>, r: Report, now: Clock, x: Parent)
    requires JsonLike(o) && UpToDate(o, ps, r) && x in SortParents(o, ps)
    ensures UntimedParent(x) == UntimedParent(Retime(o, r, now, x))
  {
    if x.controller == r.controller {
      SortElements(o.parent, CanonAll(o, ps));
      assert x in multiset(SortParents(o, ps));
      assert x in CanonAll(o, ps);
      var i :| 0 <= i < |ps| && CanonAll(o, ps)[i] == x;
      OfMembers(ps, r.controller, true);
      assert ps[i] in Of(ps, r.controller, true);
      ContentIgnoresClock(o, r, now, AtZero(), x.ref);
    }
  }

  function Untimer(): Parent -> Parent { p => UntimedParent(p) }

  function Contents(o: Order): Parent -> Parent { p => Content(o, p) }

  /** Statuses that are the same up to time have the same contents. */
  lemma {:induction false} SameContents(o: Order, ps: seq<Parent>, qs: seq<Parent>)
    requires SameStatus(SortParents(o, ps), SortParents(o, qs))
    ensures multiset(Map(Contents(o), ps)) == multiset(Map(Contents(o), qs))
  {
    SortedImage(o, Untimer(), Contents(o), ps);
    SortedImage(o, Untimer(), Contents(o), qs);
    assert Map(Untimer(), SortParents(o, ps)) == Map(Untimer(), SortParents(o, qs));
  }

  /** The own entries, as joined to those of others, can be told apart again. */
  lemma {:induction false} OwnOfJoined(ps: seq<Parent>, r: Report, now: Clock, order: seq<string>)
    ensures Of(Of(ps, r.controller, false) + OwnAll(r, now, order), r.controller, true) == OwnAll(r, now, order)
  {
    forall p | p in OwnAll(r, now, order)
      ensures p.controller == r.controller
    {
      var i :| 0 <= i < |order| && OwnAll(r, now, order)[i] == p;
    }
    OfJoined(ps, OwnAll(r, now, order), r.controller);
  }

  /** If nothing needs updating, the contents of this controller's entries are those of its report. */
  lemma {:induction false} OwnContents(o: Order, ps: seq<Parent>, r: Report, now: Clock, order: seq<string>)
    requires SameStatus(SortParents(o, ps), Merge(o, ps, r, now, order))
    ensures multiset(Map(Contents(o), Of(ps, r.controller, true))) == multiset(Map(Contents(o), OwnAll(r, now, order)))
  {
    var c, joined := r.controller, Of(ps, r.controller, false) + OwnAll(r, now, order);
    SameContents(o, ps, joined);
    OfElements(Map(Contents(o), ps), Map(Contents(o), joined), c, true);
    OfMap(Contents(o), ps, c, true);
    OfMap(Contents(o), joined, c, true);
    OwnOfJoined(ps, r, now, order);
  }

  function RefOf(): Parent -> string { (p: Parent) => p.ref }

  lemma {:induction false} RefsOfContents(o: Order, ps: seq<Parent>)
    ensures Map(RefOf(), Map(Contents(o), ps)) == Refs(ps)
  {}

  lemma {:induction false} NoUpdateMeansUpToDate(o: Order, ps: seq<Parent>, r: Report, now: Clock, order: seq<string>)
    requires JsonLike(o) && Visits(order, r.findings)
    requires SameStatus(SortParents(o, ps), Merge(o, ps, r, now, order))
    ensures UpToDate(o, ps, r)
  {
    var mine, own := Of(ps, r.controller, true), OwnAll(r, now, order);
    OwnContents(o, ps, r, now, order);
    MapElements(RefOf(), Map(Contents(o), mine), Map(Contents(o), own));
    RefsOfContents(o, mine);
    RefsOfContents(o, own);
    assert Refs(own) == order;
    VisitsKeys(order, r.findings);
    forall p | p in mine
      ensures Content(o, p) == Content(o, OwnOf(r, AtZero(), p.ref))
    {
      SaysItsFinding(o, mine, r, now, order, p);
    }
  }

  lemma {:induction false} SaysItsFinding(o: Order, mine: seq<Parent>, r: Report, now: Clock, order: seq<string>,
                                          p: Parent)
    requires JsonLike(o) && p in mine
    requires multiset(Map(Contents(o), mine)) == multiset(Map(Contents(o), OwnAll(r, now, order)))
    ensures Content(o, p) == Content(o, OwnOf(r, AtZero(), p.ref))
  {
    var own := OwnAll(r, now, order);
    var i :| 0 <= i < |mine| && mine[i] == p;
    assert Map(Contents(o), mine)[i] == Content(o, p);
    assert Content(o, p) in multiset(Map(Contents(o), own));
    var k :| 0 <= k < |own| && Map(Contents(o), own)[k] == Content(o, p);
    ContentIgnoresClock(o, r, now, AtZero(), order[k]);
  }

  /** An update is called for exactly when this controller's entries do not say what its findings say. */
  lemma {:induction false} NeedsUpdateIffOutOfDate(o: Order, ps: seq<Parent>, r: Report, now: Clock, order: seq<string>)
    requires JsonLike(o) && Visits(order, r.findings)
    ensures SameStatus(SortParents(o, ps), Merge(o, ps, r, now, order)) <==> UpToDate(o, ps, r)
  {
    if UpToDate(o, ps, r) {
      UpToDateNeedsNoUpdate(o, ps, r, now, order);
    }
    if SameStatus(SortParents(o, ps), Merge(o, ps, r, now, order)) {
      NoUpdateMeansUpToDate(o, ps, r, now, order);
    }
  }

  // ----- Once stored, the result needs no update -------------------------------------------------------------------

  lemma {:induction false} CanonTwice(o: Order, p: Parent)
    requires JsonLike(o)
    ensures Canon(o, Canon(o, p)) == Canon(o, p)
  {
    SortSorts(o.condition, p.conditions);
    SortDependsOnElements(o.condition, SortBy(o.condition, p.conditions), SortBy(o.condition, p.conditions));
  }

  lemma {:induction false} CanonOf(o: Order, ps: seq<Parent>, c: string, mine: bool)
    ensures CanonAll(o, Of(ps, c, mine)) == Of(CanonAll(o, ps), c, mine)
  {
    var f := p => Canon(o, p);
    OfMap(f, ps, c, mine);
    assert Map(f, ps) == CanonAll(o, ps) && Map(f, Of(ps, c, mine)) == CanonAll(o, Of(ps, c, mine));
  }

  lemma {:induction false} MergedMine(o: Order, ps: seq<Parent>, r: Report, now: Clock, order: seq<string>)
    ensures multiset(Of(Merge(o, ps, r, now, order), r.controller, true)) ==
            multiset(CanonAll(o, OwnAll(r, now, order)))
  {
    var c, joined := r.controller, Of(ps, r.controller, false) + OwnAll(r, now, order);
    SortElements(o.parent, CanonAll(o, joined));
    OfElements(Merge(o, ps, r, now, order), CanonAll(o, joined), c, true);
    CanonOf(o, joined, c, true);
    OwnOfJoined(ps, r, now, order);
  }

  /** The merged status is up to date, so the next reconciliation, at any later time, writes nothing. */
  lemma {:induction false} StoredStatusNeedsNoUpdate(o: Order, ps: seq<Parent>, r: Report, now: Clock,
                                                     order: seq<string>, later: Clock, order': seq<string>)
    requires JsonLike(o) && Visits(order, r.findings) && Visits(order', r.findings)
    ensures var stored := Merge(o, ps, r, now, order);
            UpToDate(o, stored, r) && SameStatus(SortParents(o, stored), Merge(o, stored, r, later, order'))
  {
    var stored, own := Merge(o, ps, r, now, order), CanonAll(o, OwnAll(r, now, order));
    var mine := Of(stored, r.controller, true);
    MergedMine(o, ps, r, now, order);
    MapElements(RefOf(), mine, own);
    assert Map(RefOf(), mine) == Refs(mine) && Map(RefOf(), own) == order;
    VisitsKeys(order, r.findings);
    forall p | p in mine
      ensures Content(o, p) == Content(o, OwnOf(r, AtZero(), p.ref))
    {
      assert p in multiset(own);
      var i :| 0 <= i < |own| && own[i] == p;
      CanonTwice(o, OwnOf(r, now, order[i]));
      ContentIgnoresClock(o, r, now, AtZero(), order[i]);
    }
    NeedsUpdateIffOutOfDate(o, stored, r, later, order');
  }

  // ----- What the entries say, by their fields ----------------------------------------------------------------------

  /** Condition i is the only one of its kind, and says what was found out. */
  ghost predicate OnlyCondition(p: Parent, i: nat, kind: string, found: Outcome, generation: int) {
    && i < |p.conditions| && p.conditions[i].kind == kind && p.conditions[i].generation == generation
    && p.conditions[i].status == found.status && p.conditions[i].reason == found.reason
    && p.conditions[i].message == found.message
    && forall j | 0 <= j < |p.conditions| && j != i :: p.conditions[j].kind != kind
  }

  /** The entry has one condition "Accepted" and one "ResolvedRefs", saying what was found out about each. */
  ghost predicate Says(p: Parent, f: Finding, generation: int) {
    && |p.conditions| == 2
    && (exists i: nat :: OnlyCondition(p, i, "Accepted", f.accepted, generation))
    && (exists i: nat :: OnlyCondition(p, i, "ResolvedRefs", f.resolvedRefs, generation))
  }

  /** Every entry of this controller is for a finding, and says what was found out. */
  ghost predicate EachSays(ps: seq<Parent>, r: Report) {
    forall i | 0 <= i < |ps| && ps[i].controller == r.controller ::
      ps[i].ref in r.findings && Says(ps[i], r.findings[ps[i].ref], r.generation)
  }

  /** No two entries of the controller are for one reference. */
  ghost predicate NoneTwice(ps: seq<Parent>, c: string) {
    forall i, j | 0 <= i < j < |ps| && ps[i].controller == c && ps[j].controller == c :: ps[i].ref != ps[j].ref
  }

  ghost predicate IsListed(ps: seq<Parent>, c: string, ref: string) {
    exists i | 0 <= i < |ps| :: ps[i].controller == c && ps[i].ref == ref
  }

  /** This controller's entries are one for each finding, and say what was found out. */
  ghost predicate SaysAll(ps: seq<Parent>, r: Report) {
    && EachSays(ps, r) && NoneTwice(ps, r.controller)
    && forall ref | ref in r.findings :: IsListed(ps, r.controller, ref)
  }

  lemma {:induction false} OwnSays(r: Report, now: Clock, ref: string)
    requires ref in r.findings
    ensures var p := OwnOf(r, now, ref);
            Says(p, r.findings[ref], r.generation) && p.ref == ref && p.controller == r.controller
  {
    var p := OwnOf(r, now, ref);
    assert OnlyCondition(p, 0, "Accepted", r.findings[ref].accepted, r.generation);
    assert OnlyCondition(p, 1, "ResolvedRefs", r.findings[ref].resolvedRefs, r.generation);
  }

  lemma {:induction false} OwnAllSay(r: Report, now: Clock, order: seq<string>)
    requires Visits(order, r.findings)
    ensures SaysAll(OwnAll(r, now, order), r)
  {
    forall i | 0 <= i < |order|
      ensures var p := OwnOf(r, now, order[i]);
              Says(p, r.findings[order[i]], r.generation) && p.ref == order[i] && p.controller == r.controller
    {
      OwnSays(r, now, order[i]);
    }
    forall ref | ref in r.findings
      ensures IsListed(OwnAll(r, now, order), r.controller, ref)
    {
      var i :| 0 <= i < |order| && order[i] == ref;
      assert OwnAll(r, now, order)[i].ref == ref;
    }
  }

  lemma {:induction false} OwnEntryAt(ps: seq<Parent>, c: string, i: nat)
    requires i < |ps| && ps[i].controller == c
    ensures ps[i] in Of(ps, c, true)
  {
    OfMembers(ps, c, true);
  }

  /** Two entries with one reference are counted twice. */
  lemma {:induction false} RefCounted(ps: seq<Parent>, c: string, i: nat, j: nat)
    requires i < j < |ps| && ps[i].controller == c && ps[j].controller == c && ps[i].ref == ps[j].ref
    ensures multiset(Refs(Of(ps, c, true)))[ps[i].ref] >= 2
    decreases |ps|
  {
    var init, last := ps[..|ps| - 1], ps[|ps| - 1];
    var mine := Of(init, c, true);
    if j < |ps| - 1 {
      RefCounted(init, c, i, j);
      RefsMore(mine, if last.controller == c then [last] else []);
    } else {
      RefCountedOnce(init, c, i);
      RefsMore(mine, [last]);
    }
  }

  lemma {:induction false} RefsMore(a: seq<Parent>, b: seq<Parent>)
    ensures multiset(Refs(a + b)) == multiset(Refs(a)) + multiset(Refs(b))
  {
    assert Refs(a + b) == Refs(a) + Refs(b);
  }

  lemma {:induction false} RefCountedOnce(ps: seq<Parent>, c: string, i: nat)
    requires i < |ps| && ps[i].controller == c
    ensures multiset(Refs(Of(ps, c, true)))[ps[i].ref] >= 1
  {
    OwnEntryAt(ps, c, i);
    var k :| 0 <= k < |Of(ps, c, true)| && Of(ps, c, true)[k] == ps[i];
    assert Refs(Of(ps, c, true))[k] == ps[i].ref;
  }

  lemma {:induction false} OneMoreOwn(ps: seq<Parent>, p: Parent, c: string)
    ensures Of(ps + [p], c, true) == Of(ps, c, true) + if p.controller == c then [p] else []
  {
    assert (ps + [p])[..|ps|] == ps;
  }

  ghost predicate AllDistinct(refs: seq<string>) {
    forall j, k | 0 <= j < k < |refs| :: refs[j] != refs[k]
  }

  lemma {:induction false} OneMoreDistinct(refs: seq<string>, x: string)
    requires AllDistinct(refs) && x !in refs
    ensures AllDistinct(refs + [x])
  {}

  lemma {:induction false} OwnRefsStep(ps: seq<Parent>, p: Parent, c: string)
    requires AllDistinct(Refs(Of(ps, c, true)))
    requires p.controller == c ==> forall i | 0 <= i < |ps| && ps[i].controller == c :: ps[i].ref != p.ref
    ensures AllDistinct(Refs(Of(ps + [p], c, true)))
  {
    OneMoreOwn(ps, p, c);
    var mine := Of(ps, c, true);
    if p.controller == c {
      OfMembers(ps, c, true);
      forall k | 0 <= k < |mine|
        ensures Refs(mine)[k] != p.ref
      {
        assert mine[k] in mine;
      }
      OneMoreDistinct(Refs(mine), p.ref);
      assert Refs(mine + [p]) == Refs(mine) + [p.ref];
    } else {
      assert mine + [] == mine;
    }
  }

  lemma {:induction false} OwnRefsDistinct(ps: seq<Parent>, c: string)
    requires NoneTwice(ps, c)
    ensures AllDistinct(Refs(Of(ps, c, true)))
  {
    for n := 0 to |ps|
      invariant AllDistinct(Refs(Of(ps[..n], c, true)))
    {
      assert forall i | 0 <= i < n :: ps[..n][i] == ps[i];
      OwnRefsStep(ps[..n], ps[n], c);
      assert ps[..n] + [ps[n]] == ps[..n + 1];
    }
    assert ps[..|ps|] == ps;
  }

  /** The references of the controller's entries are exactly the given ones, each once. */
  lemma {:induction false} OwnRefsFit(ps: seq<Parent>, c: string, refs: set<string>)
    requires multiset(Refs(Of(ps, c, true))) == multiset(refs)
    ensures NoneTwice(ps, c)
    ensures forall i | 0 <= i < |ps| && ps[i].controller == c :: ps[i].ref in refs
  {
    forall i, j | 0 <= i < j < |ps| && ps[i].controller == c && ps[j].controller == c
      ensures ps[i].ref != ps[j].ref
    {
      assert multiset(refs)[ps[i].ref] <= 1;
      if ps[i].ref == ps[j].ref {
        RefCounted(ps, c, i, j);
      }
    }
    forall i | 0 <= i < |ps| && ps[i].controller == c
      ensures ps[i].ref in refs
    {
      RefCountedOnce(ps, c, i);
    }
  }

  lemma {:induction false} ListedIff(ps: seq<Parent>, c: string, ref: string)
    ensures ref in Refs(Of(ps, c, true)) <==> IsListed(ps, c, ref)
  {
    var mine := Of(ps, c, true);
    OfMembers(ps, c, true);
    if ref in Refs(mine) {
      var k :| 0 <= k < |mine| && Refs(mine)[k] == ref;
      assert mine[k] in mine;
      var i :| 0 <= i < |ps| && ps[i] == mine[k];
    }
    if IsListed(ps, c, ref) {
      var i :| 0 <= i < |ps| && ps[i].controller == c && ps[i].ref == ref;
      assert ps[i] in ps && ps[i] in mine;
      var k :| 0 <= k < |mine| && mine[k] == ps[i];
      assert Refs(mine)[k] == ref;
    }
  }

  lemma {:induction false} OwnRefsIff(ps: seq<Parent>, c: string, refs: set<string>)
    ensures multiset(Refs(Of(ps, c, true))) == multiset(refs) <==>
            && NoneTwice(ps, c) && (forall ref | ref in refs :: IsListed(ps, c, ref))
            && (forall i | 0 <= i < |ps| && ps[i].controller == c :: ps[i].ref in refs)
  {
    var own := Refs(Of(ps, c, true));
    forall ref: string
      ensures ref in own <==> IsListed(ps, c, ref)
    {
      ListedIff(ps, c, ref);
    }
    if multiset(own) == multiset(refs) {
      OwnRefsFit(ps, c, refs);
      forall ref | ref in refs
        ensures IsListed(ps, c, ref)
      {
        assert ref in multiset(own);
      }
    } else if NoneTwice(ps, c) && forall i | 0 <= i < |ps| && ps[i].controller == c :: ps[i].ref in refs {
      OwnRefsDistinct(ps, c);
      var x :| multiset(own)[x] != multiset(refs)[x];
      DistinctCount(own, x);
    }
  }

  /** What is merged, whatever others report, says for each finding what was found out. */
  lemma {:induction false} MergeSaysAll(o: Order, ps: seq<Parent>, r: Report, now: Clock, order: seq<string>)
    requires JsonLike(o) && Visits(order, r.findings)
    ensures SaysAll(Merge(o, ps, r, now, order), r)
  {
    StoredStatusNeedsNoUpdate(o, ps, r, now, order, now, order);
    UpToDateIffSaysAll(o, Merge(o, ps, r, now, order), r);
  }

  lemma {:induction false} SortSwapped(o: Order, a: Condition, b: Condition)
    requires JsonLike(o) && a.kind != b.kind
    ensures SortBy(o.condition, [a, b]) == SortBy(o.condition, [b, a])
  {
    SortTwo(o, a, b);
    SortTwo(o, b, a);
    assert o.condition(a, b) || o.condition(b, a);
    assert !(o.condition(a, b) && o.condition(b, a));
  }

  /** Two conditions of different kinds have the sorted untimed form of two others only if they say the same. */
  lemma {:induction false} SameSortedIff(o: Order, a: Condition, b: Condition, x: Condition, y: Condition)
    requires JsonLike(o) && x.kind != y.kind
    ensures UntimedAll(SortBy(o.condition, [a, b])) == UntimedAll(SortBy(o.condition, [x, y])) <==>
            (Untimed(a) == Untimed(x) && Untimed(b) == Untimed(y)) ||
            (Untimed(a) == Untimed(y) && Untimed(b) == Untimed(x))
  {
    SortTwo(o, a, b);
    SortTwo(o, x, y);
    var l, r := UntimedAll(SortBy(o.condition, [a, b])), UntimedAll(SortBy(o.condition, [x, y]));
    if l == r {
      assert l[0] == r[0] && l[1] == r[1];
    } else if Untimed(a) == Untimed(x) && Untimed(b) == Untimed(y) {
      SortedAlike(o, x, y, a, b);
    } else if Untimed(a) == Untimed(y) && Untimed(b) == Untimed(x) {
      assert b.kind == Untimed(b).kind == x.kind && a.kind == Untimed(a).kind == y.kind;
      SortSwapped(o, a, b);
      SortedAlike(o, x, y, b, a);
    }
  }

  lemma {:induction false} SaysIff(p: Parent, f: Finding, generation: int, x: Condition, y: Condition)
    requires Untimed(x) ==
             Condition("Accepted", f.accepted.status, generation, 0, f.accepted.reason, f.accepted.message)
    requires Untimed(y) ==
             Condition("ResolvedRefs", f.resolvedRefs.status, generation, 0, f.resolvedRefs.reason,
                       f.resolvedRefs.message)
    ensures Says(p, f, generation) <==>
            && |p.conditions| == 2
            && var a, b := Untimed(p.conditions[0]), Untimed(p.conditions[1]);
               (a == Untimed(x) && b == Untimed(y)) || (a == Untimed(y) && b == Untimed(x))
  {
    assert |"Accepted"| != |"ResolvedRefs"|;
    if |p.conditions| == 2 {
      var a, b := Untimed(p.conditions[0]), Untimed(p.conditions[1]);
      if a == Untimed(x) && b == Untimed(y) {
        assert OnlyCondition(p, 0, "Accepted", f.accepted, generation);
        assert OnlyCondition(p, 1, "ResolvedRefs", f.resolvedRefs, generation);
      } else if a == Untimed(y) && b == Untimed(x) {
        assert OnlyCondition(p, 1, "Accepted", f.accepted, generation);
        assert OnlyCondition(p, 0, "ResolvedRefs", f.resolvedRefs, generation);
      }
    }
  }

  lemma {:induction false} SortKeepsLength(o: Order, cs: seq<Condition>)
    ensures |SortBy(o.condition, cs)| == |cs|
  {
    SortElements(o.condition, cs);
    assert |multiset(SortBy(o.condition, cs))| == |multiset(cs)|;
  }

  lemma {:induction false} ContentByConditions(o: Order, p: Parent, q: Parent)
    requires p.ref == q.ref && p.controller == q.controller
    ensures Content(o, p) == Content(o, q) <==>
            UntimedAll(SortBy(o.condition, p.conditions)) == UntimedAll(SortBy(o.condition, q.conditions))
  {}

  lemma {:induction false} ContentIffSays(o: Order, p: Parent, r: Report)
    requires JsonLike(o) && p.controller == r.controller && p.ref in r.findings
    ensures Content(o, p) == Content(o, OwnOf(r, AtZero(), p.ref)) <==> Says(p, r.findings[p.ref], r.generation)
  {
    var own := OwnOf(r, AtZero(), p.ref);
    var x, y := own.conditions[0], own.conditions[1];
    assert own.conditions == [x, y];
    assert |x.kind| != |y.kind|;
    SaysIff(p, r.findings[p.ref], r.generation, x, y);
    SortKeepsLength(o, p.conditions);
    SortKeepsLength(o, own.conditions);
    ContentByConditions(o, p, own);
    if |p.conditions| == 2 {
      assert p.conditions == [p.conditions[0], p.conditions[1]];
      SameSortedIff(o, p.conditions[0], p.conditions[1], x, y);
    } else {
      assert |Content(o, p).conditions| != |Content(o, own).conditions|;
    }
  }

  /** Being up to date is that this controller's entries say, one for each finding, what was found out. */
  lemma {:induction false} UpToDateIffSaysAll(o: Order, ps: seq<Parent>, r: Report)
    requires JsonLike(o)
    ensures UpToDate(o, ps, r) <==> SaysAll(ps, r)
  {
    var mine := Of(ps, r.controller, true);
    OwnRefsIff(ps, r.controller, r.findings.Keys);
    OfMembers(ps, r.controller, true);
    forall p | p in mine && p.ref in r.findings
      ensures Content(o, p) == Content(o, OwnOf(r, AtZero(), p.ref)) <==> Says(p, r.findings[p.ref], r.generation)
    {
      ContentIffSays(o, p, r);
    }
    if SaysAll(ps, r) {
      forall p | p in mine
        ensures Content(o, p) == Content(o, OwnOf(r, AtZero(), p.ref))
      {
        var i :| 0 <= i < |ps| && ps[i] == p;
        assert ps[i].controller == r.controller;
      }
    }
    if UpToDate(o, ps, r) {
      forall i | 0 <= i < |ps| && ps[i].controller == r.controller
        ensures ps[i].ref in r.findings && Says(ps[i], r.findings[ps[i].ref], r.generation)
      {
        assert ps[i] in mine;
      }
    }
  }

  // ----- The operations ---------------------------------------------------------------------------------------------

  method FilterParentStatuses(ps: seq<Parent>, controller: string) returns (filtered: seq<Parent>)
    ensures filtered == Of(ps, controller, false)
  {
    filtered := [];
    for i := 0 to |ps|
      invariant filtered == Of(ps[..i], controller, false)
    {
      assert ps[..i + 1][..i] == ps[..i];
      if ps[i].controller != controller {
        filtered := filtered + [ps[i]];
      }
    }
    assert ps[..|ps|] == ps;
  }

  /** One entry for each finding, in some order. */
  ghost predicate ReportsAll(statuses: seq<Parent>, r: Report, now: Clock) {
    exists order: seq<string> :: Visits(order, r.findings) && statuses == OwnAll(r, now, order)
  }

  /** The merge for some order of the findings. */
  ghost predicate IsMerge(merged: seq<Parent>, o: Order, ps: seq<Parent>, r: Report, now: Clock) {
    exists order: seq<string> :: Visits(order, r.findings) && merged == Merge(o, ps, r, now, order)
  }

  /** One entry per finding, in the arbitrary order in which the map is visited. */
  method Statuses(r: Report, now: Clock) returns (statuses: seq<Parent>, ghost order: seq<string>)
    ensures Visits(order, r.findings) && statuses == OwnAll(r, now, order)
    ensures ReportsAll(statuses, r, now) && SaysAll(statuses, r)
  {
    statuses, order := [], [];
    var rest := r.findings.Keys;
    while rest != {}
      invariant rest <= r.findings.Keys
      invariant forall k | 0 <= k < |order| :: order[k] in r.findings && order[k] !in rest
      invariant forall j, k | 0 <= j < k < |order| :: order[j] != order[k]
      invariant forall ref | ref in r.findings && ref !in rest :: ref in order
      invariant statuses == OwnAll(r, now, order)
      decreases rest
    {
      var ref :| ref in rest;
      statuses := statuses + [Own(r.findings[ref], r.controller, r.generation, now, ref)];
      order := order + [ref];
      rest := rest - {ref};
    }
    OwnAllSay(r, now, order);
  }

  method SortParentStatuses(o: Order, ps: seq<Parent>) returns (sorted: seq<Parent>)
    ensures sorted == SortParents(o, ps)
  {
    sorted := ps;
    for i := 0 to |ps|
      invariant |sorted| == |ps|
      invariant forall j | 0 <= j < i :: sorted[j] == Canon(o, ps[j])
      invariant forall j | i <= j < |ps| :: sorted[j] == ps[j]
    {
      sorted := sorted[i := sorted[i].(conditions := SortBy(o.condition, sorted[i].conditions))];
    }
    assert sorted == CanonAll(o, ps);
    sorted := SortBy(o.parent, sorted);
  }

  method MergedStatus(o: Order, ps: seq<Parent>, r: Report, now: Clock)
    returns (merged: seq<Parent>, ghost order: seq<string>)
    ensures Visits(order, r.findings) && merged == Merge(o, ps, r, now, order)
    ensures IsMerge(merged, o, ps, r, now)
    ensures JsonLike(o) ==> SaysAll(merged, r)
  {
    var others := FilterParentStatuses(ps, r.controller);
    var own;
    own, order := Statuses(r, now);
    merged := SortParentStatuses(o, others + own);
    if JsonLike(o) {
      MergeSaysAll(o, ps, r, now, order);
    }
  }

  method ConditionsEqual(a: seq<Condition>, b: seq<Condition>) returns (same: bool)
    ensures same <==> |a| == |b| && forall i | 0 <= i < |a| :: Untimed(a[i]) == Untimed(b[i])
  {
    if |a| != |b| {
      return false;
    }
    for i := 0 to |a|
      invariant forall j | 0 <= j < i :: Untimed(a[j]) == Untimed(b[j])
    {
      if a[i].kind != b[i].kind || a[i].generation != b[i].generation || a[i].status != b[i].status ||
         a[i].reason != b[i].reason || a[i].message != b[i].message {
        return false;
      }
    }
    return true;
  }

  lemma {:induction false} SameUntimed(p: Parent, q: Parent)
    ensures UntimedParent(p) == UntimedParent(q) <==>
            && p.ref == q.ref && p.controller == q.controller && |p.conditions| == |q.conditions|
            && forall i | 0 <= i < |p.conditions| :: Untimed(p.conditions[i]) == Untimed(q.conditions[i])
  {
    var a, b := UntimedParent(p).conditions, UntimedParent(q).conditions;
    if a == b {
      forall i | 0 <= i < |a|
        ensures Untimed(p.conditions[i]) == Untimed(q.conditions[i])
      {
        assert a[i] == b[i];
      }
    }
  }

  method RouteStatusEqual(a: seq<Parent>, b: seq<Parent>) returns (same: bool)
    ensures same <==> SameStatus(a, b)
  {
    if |a| != |b| {
      return false;
    }
    for i := 0 to |a|
      invariant forall j | 0 <= j < i :: UntimedParent(a[j]) == UntimedParent(b[j])
    {
      SameUntimed(a[i], b[i]);
      if a[i].controller != b[i].controller || a[i].ref != b[i].ref {
        return false;
      }
      var equal := ConditionsEqual(a[i].conditions, b[i].conditions);
      if !equal {
        return false;
      }
    }
    return true;
  }

  method NeedsUpdate(o: Order, ps: seq<Parent>, r: Report, now: Clock)
    returns (updated: seq<Parent>, needed: bool, ghost order: seq<string>)
    requires JsonLike(o)
    ensures Visits(order, r.findings) && updated == Merge(o, ps, r, now, order)
    ensures needed <==> !UpToDate(o, ps, r)
    ensures SaysAll(updated, r) && (needed <==> !SaysAll(ps, r))
  {
    var current := SortParentStatuses(o, ps);
    updated, order := MergedStatus(o, ps, r, now);
    var same := RouteStatusEqual(current, updated);
    needed := !same;
    NeedsUpdateIffOutOfDate(o, ps, r, now, order);
    UpToDateIffSaysAll(o, ps, r);
  }
}
