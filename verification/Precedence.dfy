// Ordering candidates by precedence (internal/adapters/consul/http.go, consolidate): first match
// over the stably sorted candidates is the choice by precedence, whichever way matches are read.

module Precedence {
  import opened Wrappers
  import opened Core
  import opened HttpMeaning

  // ----- Stable sorting ---------------------------------------------------------------------------

  /** In the sorted list, position i must come before position j. */
  predicate InOrder(cs: seq<Candidate>, i: nat, j: nat)
    requires i < |cs| && j < |cs|
  {
    Precedes(cs[i].httpMatch, cs[j].httpMatch) || (!Precedes(cs[j].httpMatch, cs[i].httpMatch) && i < j)
  }

  /**
   * sorted is cs sorted by precedence with ties left in their order, as sort.SliceStable promises:
   * position k of the result holds the element that was at from[k].
   */
  ghost predicate StableSort(cs: seq<Candidate>, sorted: seq<Candidate>, from: seq<nat>) {
    && |sorted| == |from| == |cs|
    && (forall k | 0 <= k < |from| :: from[k] < |cs| && sorted[k] == cs[from[k]])
    && (forall i | 0 <= i < |cs| :: i in from)
    && (forall j, k | 0 <= j < k < |from| :: InOrder(cs, from[j], from[k]))
  }

  ghost predicate StablySorted(cs: seq<Candidate>, sorted: seq<Candidate>) {
    exists from: seq<nat> :: StableSort(cs, sorted, from)
  }

  lemma {:induction false} InOrderTransitive(cs: seq<Candidate>, i: nat, j: nat, k: nat)
    requires i < |cs| && j < |cs| && k < |cs| && InOrder(cs, i, j) && InOrder(cs, j, k)
    ensures InOrder(cs, i, k)
  {}

  lemma {:induction false} SameOriginBelow(cs: seq<Candidate>, a: seq<Candidate>, from: seq<nat>, b: seq<Candidate>,
                                           from': seq<nat>, n: nat)
    requires StableSort(cs, a, from) && StableSort(cs, b, from') && n <= |cs|
    ensures forall i | 0 <= i < n :: from[i] == from'[i]
  {
    if n > 0 {
      SameOriginBelow(cs, a, from, b, from', n - 1);
      var x, y := from[n - 1], from'[n - 1];
      assert x in from' && y in from;
      var k :| 0 <= k < |from'| && from'[k] == x;
      var l :| 0 <= l < |from| && from[l] == y;
      assert !InOrder(cs, x, x) && !InOrder(cs, y, y);
      assert k >= n - 1 && l >= n - 1;
      assert InOrder(cs, x, y) || l == n - 1;
      assert InOrder(cs, y, x) || k == n - 1;
    }
  }

  /** Being a stable sort determines the result. */
  lemma {:induction false} StablySortedUnique(cs: seq<Candidate>, a: seq<Candidate>, b: seq<Candidate>)
    requires StablySorted(cs, a) && StablySorted(cs, b)
    ensures a == b
  {
    var from: seq<nat> :| StableSort(cs, a, from);
    var from': seq<nat> :| StableSort(cs, b, from');
    SameOriginBelow(cs, a, from, b, from', |cs|);
  }

  /** An insertion sort: an element moves left while it precedes its left neighbour. */
  method SliceStable(cs: seq<Candidate>) returns (sorted: seq<Candidate>)
    ensures StablySorted(cs, sorted)
  {
    var from: seq<nat> := [];
    for n := 0 to |cs|
      invariant |from| == n
      invariant forall k | 0 <= k < n :: from[k] < n
      invariant forall i | 0 <= i < n :: i in from
      invariant forall j, k | 0 <= j < k < n :: InOrder(cs, from[j], from[k])
    {
      var at := n;
      while at > 0 && Precedes(cs[n].httpMatch, cs[from[at - 1]].httpMatch)
        invariant 0 <= at <= n
        invariant forall k | at <= k < n :: InOrder(cs, n, from[k])
      {
        at := at - 1;
      }
      forall j | 0 <= j < at
        ensures InOrder(cs, from[j], n)
      {
        assert InOrder(cs, from[at - 1], n);
        if j < at - 1 {
          InOrderTransitive(cs, from[j], from[at - 1], n);
        }
      }
      ghost var before := from;
      from := from[..at] + [n] + from[at..];
      forall i | 0 <= i < n + 1
        ensures i in from
      {
        if i == n {
          assert from[at] == n;
        } else {
          assert i in before;
          var k :| 0 <= k < n && before[k] == i;
          assert from[if k < at then k else k + 1] == i;
        }
      }
    }
    sorted := seq(|cs|, k requires 0 <= k < |cs| && |from| == |cs| && from[k] < |cs| => cs[from[k]]);
    assert StableSort(cs, sorted, from);
  }

  // ----- First match is the prescribed choice -------------------------------------------------------

  function FirstMatching(cs: seq<Candidate>, p: Reading): Option<Candidate> {
    if cs == [] then None
    else if p(cs[0].httpMatch) then Some(cs[0])
    else FirstMatching(cs[1..], p)
  }

  lemma {:induction false} FirstMatchingIndex(cs: seq<Candidate>, p: Reading) returns (k: nat)
    ensures k <= |cs|
    ensures forall j | 0 <= j < k :: !p(cs[j].httpMatch)
    ensures k < |cs| ==> p(cs[k].httpMatch) && FirstMatching(cs, p) == Some(cs[k])
    ensures k == |cs| ==> FirstMatching(cs, p) == None
  {
    if cs == [] {
      k := 0;
    } else if p(cs[0].httpMatch) {
      k := 0;
    } else {
      var k' := FirstMatchingIndex(cs[1..], p);
      k := k' + 1;
      forall j | 0 <= j < k
        ensures !p(cs[j].httpMatch)
      {
        if j > 0 { assert cs[j] == cs[1..][j - 1]; }
      }
    }
  }

  /** First match over the sorted candidates finds the chosen one, or none when nothing matches. */
  lemma {:induction false} FirstMatchIsChosen(cs: seq<Candidate>, sorted: seq<Candidate>, p: Reading)
    requires StablySorted(cs, sorted)
    ensures FirstMatching(sorted, p).Some? ==>
              exists k: nat :: Chosen(cs, p, k) && FirstMatching(sorted, p) == Some(cs[k])
    ensures FirstMatching(sorted, p).None? ==> forall k: nat :: !Chosen(cs, p, k)
  {
    var from: seq<nat> :| StableSort(cs, sorted, from);
    var k := FirstMatchingIndex(sorted, p);
    if k < |sorted| {
      forall j | 0 <= j < |cs| && p(cs[j].httpMatch)
        ensures j == from[k] || InOrder(cs, from[k], j)
      {
        assert j in from;
        var l :| 0 <= l < |from| && from[l] == j;
        assert sorted[l] == cs[j];
      }
      assert Chosen(cs, p, from[k]);
    } else {
      forall c: nat | c < |cs|
        ensures !p(cs[c].httpMatch)
      {
        assert c in from;
        var l :| 0 <= l < |from| && from[l] == c;
        assert sorted[l] == cs[c];
      }
    }
  }

  // ----- Listing a host twice changes nothing --------------------------------------------------------

  /** The chosen candidate, computed left to right. */
  function Best(cs: seq<Candidate>, p: Reading): Option<Candidate> {
    if cs == [] then None
    else Better(Best(cs[..|cs| - 1], p), Only(cs[|cs| - 1], p))
  }

  function Only(c: Candidate, p: Reading): Option<Candidate> {
    if p(c.httpMatch) then Some(c) else None
  }

  function Better(a: Option<Candidate>, b: Option<Candidate>): Option<Candidate> {
    if b.Some? && (a.None? || Precedes(b.value.httpMatch, a.value.httpMatch)) then b else a
  }

  lemma {:induction false} BestIsChosen(cs: seq<Candidate>, p: Reading)
    ensures Best(cs, p).Some? ==> exists k: nat :: Chosen(cs, p, k) && Best(cs, p) == Some(cs[k])
    ensures Best(cs, p).None? ==> forall k | 0 <= k < |cs| :: !p(cs[k].httpMatch)
  {
    if cs != [] {
      var init, n := cs[..|cs| - 1], |cs| - 1;
      BestIsChosen(init, p);
      assert forall j | 0 <= j < n :: cs[j] == init[j];
      if Best(init, p).Some? {
        var k: nat :| Chosen(init, p, k) && Best(init, p) == Some(init[k]);
        if Best(cs, p) == Some(cs[n]) && p(cs[n].httpMatch) && Precedes(cs[n].httpMatch, cs[k].httpMatch) {
          assert Chosen(cs, p, n);
        } else {
          assert Chosen(cs, p, k);
        }
      } else if Best(cs, p).Some? {
        assert Chosen(cs, p, n);
      }
    }
  }

  lemma {:induction false} ChosenIsBest(cs: seq<Candidate>, p: Reading, k: nat)
    requires Chosen(cs, p, k)
    ensures Best(cs, p) == Some(cs[k])
  {
    BestIsChosen(cs, p);
    var j: nat :| Chosen(cs, p, j) && Best(cs, p) == Some(cs[j]);
    ChosenIsUnique(cs, p, j, k);
  }

  lemma {:induction false} BestOfBoth(a: seq<Candidate>, b: seq<Candidate>, p: Reading)
    ensures Best(a + b, p) == Better(Best(a, p), Best(b, p))
    decreases |b|
  {
    if b == [] {
      assert a + b == a;
    } else {
      var init := b[..|b| - 1];
      assert (a + b)[..|a + b| - 1] == a + init;
      BestOfBoth(a, init, p);
    }
  }

  function Repeat(cs: seq<Candidate>, n: nat): seq<Candidate> {
    if n == 0 then [] else Repeat(cs, n - 1) + cs
  }

  lemma {:induction false} BestOfRepeat(cs: seq<Candidate>, n: nat, p: Reading)
    requires n > 0
    ensures Best(Repeat(cs, n), p) == Best(cs, p)
  {
    BestOfBoth(Repeat(cs, n - 1), cs, p);
    if n > 1 {
      BestOfRepeat(cs, n - 1, p);
    }
  }

  function Occurrences(hosts: seq<string>, host: string): nat {
    if hosts == [] then 0
    else Occurrences(hosts[..|hosts| - 1], host) + if hosts[|hosts| - 1] == host then 1 else 0
  }

  lemma {:induction false} OccursIffListed(hosts: seq<string>, host: string)
    ensures Occurrences(hosts, host) > 0 <==> host in hosts
  {
    if hosts != [] {
      OccursIffListed(hosts[..|hosts| - 1], host);
      assert hosts == hosts[..|hosts| - 1] + [hosts[|hosts| - 1]];
    }
  }

  /** What the consolidator collects for host: a route contributes once per mention of the host. */
  function Collected(routes: seq<ResolvedRoute>, host: string): seq<Candidate> {
    if routes == [] then []
    else
      var last := routes[|routes| - 1];
      Collected(routes[..|routes| - 1], host) +
      (if last.HTTPRoute? then Repeat(RulesCandidates(last.rules, |last.rules|), Occurrences(last.hostnames, host))
       else [])
  }

  lemma {:induction false} CollectedMeansCandidates(routes: seq<ResolvedRoute>, host: string, p: Reading)
    ensures Best(Collected(routes, host), p) == Best(Candidates(routes, host), p)
  {
    if routes != [] {
      var init, last := routes[..|routes| - 1], routes[|routes| - 1];
      CollectedMeansCandidates(init, host, p);
      if last.HTTPRoute? {
        var cs, n := RulesCandidates(last.rules, |last.rules|), Occurrences(last.hostnames, host);
        OccursIffListed(last.hostnames, host);
        BestOfBoth(Collected(init, host), Repeat(cs, n), p);
        if n > 0 {
          BestOfRepeat(cs, n, p);
          BestOfBoth(Candidates(init, host), cs, p);
        } else {
          assert Candidates(init, host) + [] == Candidates(init, host);
          assert Candidates(routes, host) == Candidates(init, host);
        }
      } else {
        assert Collected(init, host) + [] == Collected(init, host);
        assert Candidates(init, host) + [] == Candidates(init, host);
      }
    }
  }

  /** First match over the sorted collection is the prescribed choice among the routes' candidates. */
  lemma {:induction false} FirstMatchIsReferenceChoice(routes: seq<ResolvedRoute>, host: string, sorted: seq<Candidate>,
                                                       p: Reading)
    requires StablySorted(Collected(routes, host), sorted)
    ensures FirstMatching(sorted, p) == Best(Candidates(routes, host), p)
  {
    var cs := Collected(routes, host);
    FirstMatchIsChosen(cs, sorted, p);
    BestIsChosen(cs, p);
    CollectedMeansCandidates(routes, host, p);
    if FirstMatching(sorted, p).Some? {
      var k: nat :| Chosen(cs, p, k) && FirstMatching(sorted, p) == Some(cs[k]);
      ChosenIsBest(cs, p, k);
    }
  }
}
