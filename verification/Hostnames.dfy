// Hostname matching between routes and listeners (internal/k8s/reconciler/utils.go).

module Hostnames {
  import opened Wrappers

  /** Lower-cases ASCII letters; hostnames are ASCII, so this is the folding they need. */
  function Fold(c: char): char {
    if 'A' <= c <= 'Z' then ((c as int) + 32) as char else c
  }

  predicate EqualFold(a: string, b: string) {
    |a| == |b| && forall i | 0 <= i < |a| :: Fold(a[i]) == Fold(b[i])
  }

  /** Splits a name at its dots; like strings.Split, the empty name has one empty label. */
  function Labels(s: string): (labels: seq<string>)
    ensures |labels| >= 1
  {
    if s == "" then [""]
    else
      var rest := Labels(s[1..]);
      if s[0] == '.' then [""] + rest else [[s[0]] + rest[0]] + rest[1..]
  }

  predicate MatchesAnything(pattern: string) {
    pattern == "" || pattern == "*"
  }

  predicate IsWildcard(pattern: string) {
    |pattern| >= 2 && pattern[0] == '*' && pattern[1] == '.'
  }

  /** Same number of labels, and all but the first equal up to case. */
  predicate SameTail(a: string, b: string) {
    var aLabels, bLabels := Labels(a), Labels(b);
    && |aLabels| == |bLabels|
    && forall i | 1 <= i < |aLabels| :: EqualFold(aLabels[i], bLabels[i])
  }

  predicate HostnamesMatch(a: string, b: string) {
    if MatchesAnything(a) || MatchesAnything(b) then true
    else if IsWildcard(a) || IsWildcard(b) then SameTail(a, b)
    else a == b
  }

  predicate RouteMatchesListenerHostname(listener: Option<string>, hostnames: seq<string>) {
    listener.None? || |hostnames| == 0 ||
    exists i | 0 <= i < |hostnames| :: HostnamesMatch(hostnames[i], listener.value)
  }

  // ----- What a pattern stands for ----------------------------------------------------------

  predicate Concrete(host: string) {
    host != "" && host != "*" && !("*." <= host)
  }

  /** Equal letters, or the two cases of one. */
  predicate SameLetter(c: char, d: char) {
    || c == d
    || ('A' <= c <= 'Z' && d as int == c as int - 'A' as int + 'a' as int)
    || ('A' <= d <= 'Z' && c as int == d as int - 'A' as int + 'a' as int)
  }

  predicate SameIgnoringCase(a: string, b: string) {
    |a| == |b| && forall i | 0 <= i < |a| :: SameLetter(a[i], b[i])
  }

  /** host has a single label before rest, where rest is spelled in either case. */
  predicate UnderDomain(host: string, first: string, domain: string) {
    && '.' !in first && |first| < |host| && host[..|first|] == first && host[|first|] == '.'
    && SameIgnoringCase(host[|first| + 1..], domain)
  }

  /**
   * The hosts a single pattern admits: any for "" and "*"; for "*." and a domain those with one label before
   * the domain; otherwise the pattern itself.
   */
  ghost predicate Accepts(pattern: string, host: string) {
    || pattern == "" || pattern == "*"
    || ("*." <= pattern && exists first: string :: UnderDomain(host, first, pattern[2..]))
    || host == pattern
  }

  // ----- Labels -----------------------------------------------------------------------------

  lemma {:induction false} FoldIgnoresCase(a: string, b: string)
    ensures EqualFold(a, b) <==> SameIgnoringCase(a, b)
  {
    assert forall c: char, d: char :: Fold(c) == Fold(d) <==> SameLetter(c, d);
  }

  /** A name is one label, or a label, a dot and the rest. */
  lemma {:induction false} FirstLabel(s: string)
    ensures var first := Labels(s)[0];
            && '.' !in first && |first| <= |s| && s[..|first|] == first
            && (|first| == |s| ==> |Labels(s)| == 1)
            && (|first| < |s| ==> s[|first|] == '.' && Labels(s)[1..] == Labels(s[|first| + 1..]))
  {
    if s != "" {
      FirstLabel(s[1..]);
      var first := Labels(s)[0];
      if s[0] == '.' {
        assert first == "" && s[..0] == "" && Labels(s)[1..] == Labels(s[1..]);
      } else {
        var rest := Labels(s[1..])[0];
        assert first == [s[0]] + rest;
        assert s[..|first|] == [s[0]] + s[1..][..|rest|];
        if |first| < |s| {
          assert s[1..][|rest|] == s[|first|] && s[1..][|rest| + 1..] == s[|first| + 1..];
          assert Labels(s)[1..] == Labels(s[1..])[1..];
        }
      }
    }
  }

  ghost predicate SameLabels(xs: seq<string>, ys: seq<string>) {
    |xs| == |ys| && forall i | 0 <= i < |xs| :: EqualFold(xs[i], ys[i])
  }

  ghost predicate Overlap(a: string, b: string) {
    exists host: string :: Concrete(host) && Accepts(a, host) && Accepts(b, host)
  }

  lemma {:induction false} SameLabelsMore(x: string, xs: seq<string>, y: string, ys: seq<string>)
    ensures SameLabels([x] + xs, [y] + ys) <==> EqualFold(x, y) && SameLabels(xs, ys)
  {
    var xs', ys' := [x] + xs, [y] + ys;
    assert forall i | 0 <= i < |xs| :: xs'[i + 1] == xs[i];
    assert forall i | 0 <= i < |ys| :: ys'[i + 1] == ys[i];
    assert xs'[0] == x && ys'[0] == y;
  }

  /** Names are equal up to case exactly if they have as many labels, equal up to case one by one. */
  lemma {:induction false} LabelsDecide(a: string, b: string)
    ensures EqualFold(a, b) <==> SameLabels(Labels(a), Labels(b))
  {
    if a == "" || b == "" {
      EmptyLabels(a, b);
    } else {
      var as', bs' := Labels(a[1..]), Labels(b[1..]);
      LabelsDecide(a[1..], b[1..]);
      assert EqualFold(a, b) <==> Fold(a[0]) == Fold(b[0]) && EqualFold(a[1..], b[1..]);
      if a[0] == '.' && b[0] == '.' {
        SameLabelsMore("", as', "", bs');
      } else if a[0] != '.' && b[0] != '.' {
        SameLabelsMore([a[0]] + as'[0], as'[1..], [b[0]] + bs'[0], bs'[1..]);
        assert as' == [as'[0]] + as'[1..] && bs' == [bs'[0]] + bs'[1..];
        SameLabelsMore(as'[0], as'[1..], bs'[0], bs'[1..]);
        PrependFold(a[0], as'[0], b[0], bs'[0]);
      } else {
        OneDot(a, b);
      }
    }
  }

  lemma {:induction false} PrependFold(c: char, a: string, d: char, b: string)
    ensures EqualFold([c] + a, [d] + b) <==> Fold(c) == Fold(d) && EqualFold(a, b)
  {
    var ca, db := [c] + a, [d] + b;
    assert forall i | 0 <= i < |a| :: ca[i + 1] == a[i];
    assert forall i | 0 <= i < |b| :: db[i + 1] == b[i];
    if EqualFold(ca, db) {
      assert Fold(ca[0]) == Fold(db[0]);
      forall i | 0 <= i < |a|
        ensures Fold(a[i]) == Fold(b[i])
      {
        assert Fold(ca[i + 1]) == Fold(db[i + 1]);
      }
    }
  }

  lemma {:induction false} EmptyLabels(a: string, b: string)
    requires a == "" || b == ""
    ensures EqualFold(a, b) <==> SameLabels(Labels(a), Labels(b))
  {
    if a != "" || b != "" {
      var s := if a != "" then a else b;
      if s[0] == '.' {
        assert |Labels(s)| >= 2;
      } else {
        assert |Labels(s)[0]| >= 1;
      }
    }
  }

  lemma {:induction false} OneDot(a: string, b: string)
    requires a != "" && b != "" && (a[0] == '.') != (b[0] == '.')
    ensures !EqualFold(a, b) && !SameLabels(Labels(a), Labels(b))
  {
    assert |Labels(a)[0]| != |Labels(b)[0]|;
  }

  lemma {:induction false} LabelsOfWildcard(pattern: string)
    requires IsWildcard(pattern)
    ensures Labels(pattern) == ["*"] + Labels(pattern[2..]) && Labels(pattern)[1..] == Labels(pattern[2..])
  {
    assert pattern[1..][1..] == pattern[2..];
    assert Labels(pattern[1..]) == [""] + Labels(pattern[2..]);
    assert Labels(pattern) == [['*'] + ""] + ([""] + Labels(pattern[2..]))[1..];
    assert ['*'] + "" == "*";
  }

  lemma {:induction false} TailUnderDomain(pattern: string, host: string, first: string)
    requires IsWildcard(pattern) && first == Labels(host)[0]
    ensures SameTail(pattern, host) <==> UnderDomain(host, first, pattern[2..])
  {
    LabelsOfWildcard(pattern);
    FirstLabel(host);
    SameTails(pattern, host);
    if |first| < |host| {
      var rest := host[|first| + 1..];
      LabelsDecide(pattern[2..], rest);
      FoldIgnoresCase(pattern[2..], rest);
    }
  }

  lemma {:induction false} OnlyFirstLabel(host: string, l: string, domain: string)
    requires UnderDomain(host, l, domain)
    ensures l == Labels(host)[0]
  {
    FirstLabel(host);
    var first := Labels(host)[0];
    assert forall k | 0 <= k < |l| :: host[k] == l[k] && l[k] in l;
    assert forall k | 0 <= k < |first| :: host[k] == first[k] && first[k] in first;
  }

  /** A wildcard pattern has the tail of exactly the hosts with one label before its domain. */
  lemma {:induction false} WildcardAccepts(pattern: string, host: string)
    requires IsWildcard(pattern)
    ensures SameTail(pattern, host) <==> exists first: string :: UnderDomain(host, first, pattern[2..])
  {
    TailUnderDomain(pattern, host, Labels(host)[0]);
    if l: string :| UnderDomain(host, l, pattern[2..]) {
      OnlyFirstLabel(host, l, pattern[2..]);
    }
  }

  lemma {:induction false} SameTails(a: string, b: string)
    ensures SameTail(a, b) <==> SameLabels(Labels(a)[1..], Labels(b)[1..])
  {
    var xs, ys := Labels(a), Labels(b);
    assert forall i | 0 <= i < |xs| - 1 :: xs[1..][i] == xs[i + 1];
    assert forall i | 0 <= i < |ys| - 1 :: ys[1..][i] == ys[i + 1];
    if SameLabels(xs[1..], ys[1..]) {
      forall i | 1 <= i < |xs|
        ensures EqualFold(xs[i], ys[i])
      {
        assert EqualFold(xs[1..][i - 1], ys[1..][i - 1]);
      }
    }
  }

  /** What a pattern admits, in terms of the tails that matching compares. */
  lemma {:induction false} AcceptsByTail(pattern: string, host: string)
    ensures Accepts(pattern, host) <==>
            MatchesAnything(pattern) || (IsWildcard(pattern) && SameTail(pattern, host)) || host == pattern
    ensures Concrete(host) <==> !MatchesAnything(host) && !IsWildcard(host)
  {
    assert "*." <= pattern <==> IsWildcard(pattern) by { StartsWild(pattern); }
    StartsWild(host);
    if IsWildcard(pattern) {
      WildcardAccepts(pattern, host);
    }
  }

  lemma {:induction false} StartsWild(s: string)
    ensures "*." <= s <==> IsWildcard(s)
  {
    if |s| >= 2 {
      assert s[..2] == [s[0], s[1]];
    }
  }

  lemma {:induction false} SameTailTransitive(a: string, b: string, c: string)
    requires SameTail(a, b) && SameTail(c, b)
    ensures SameTail(a, c)
  {
    var al, bl, cl := Labels(a), Labels(b), Labels(c);
    forall i | 1 <= i < |al|
      ensures EqualFold(al[i], cl[i])
    {
      assert EqualFold(al[i], bl[i]) && EqualFold(cl[i], bl[i]);
    }
  }

  /** The first label of a wildcard pattern can be instantiated without changing the tail. */
  lemma {:induction false} InstantiateWildcard(pattern: string)
    requires IsWildcard(pattern)
    ensures SameTail(pattern, "x" + pattern[1..]) && Concrete("x" + pattern[1..])
  {
    AcceptsByTail("", "x" + pattern[1..]);
    var host := "x" + pattern[1..];
    assert host[1..] == pattern[1..];
    assert Labels(host)[1..] == Labels(pattern[1..])[1..] == Labels(pattern)[1..];
    forall i | 1 <= i < |Labels(pattern)|
      ensures EqualFold(Labels(pattern)[i], Labels(host)[i])
    {
      assert Labels(pattern)[i] == Labels(pattern)[1..][i - 1];
      assert Labels(host)[i] == Labels(host)[1..][i - 1];
    }
  }

  /** A concrete host that a given pattern admits. */
  lemma {:induction false} SomeHost(pattern: string) returns (host: string)
    ensures Concrete(host) && Accepts(pattern, host)
  {
    if MatchesAnything(pattern) {
      host := "x";
    } else if IsWildcard(pattern) {
      InstantiateWildcard(pattern);
      host := "x" + pattern[1..];
    } else {
      host := pattern;
    }
    AcceptsByTail(pattern, host);
  }

  lemma {:induction false} MatchGivesOverlap(a: string, b: string)
    requires HostnamesMatch(a, b)
    ensures Overlap(a, b)
  {
    if MatchesAnything(a) {
      var host := SomeHost(b);
    } else if MatchesAnything(b) {
      var host := SomeHost(a);
    } else if IsWildcard(a) && IsWildcard(b) {
      InstantiateWildcard(a);
      var host := "x" + a[1..];
      SameTailTransitive(host, a, b);
      assert SameTail(b, host);
      AcceptsByTail(a, host);
      AcceptsByTail(b, host);
      assert Accepts(a, host) && Accepts(b, host);
    } else if IsWildcard(a) {
      AcceptsByTail(a, b);
      assert Accepts(a, b) && Accepts(b, b) && Concrete(b);
    } else {
      assert SameTail(b, a) || a == b;
      AcceptsByTail(b, a);
      assert Accepts(a, a) && Accepts(b, a) && Concrete(a);
    }
  }

  lemma {:induction false} OverlapGivesMatch(a: string, b: string, host: string)
    requires Accepts(a, host) && Accepts(b, host)
    ensures HostnamesMatch(a, b)
  {
    AcceptsByTail(a, host);
    AcceptsByTail(b, host);
    if !MatchesAnything(a) && !MatchesAnything(b) {
      if IsWildcard(a) || IsWildcard(b) {
        SameTailReflexive(host);
        assert SameTail(a, host) && SameTail(b, host);
        SameTailTransitive(a, host, b);
      }
    }
  }

  lemma {:induction false} SameTailReflexive(a: string)
    ensures SameTail(a, a)
  {}

  /** hostnamesMatch holds exactly when some concrete hostname is admitted by both patterns. */
  lemma {:induction false} HostnamesMatchDecidesOverlap(a: string, b: string)
    ensures HostnamesMatch(a, b) <==> Overlap(a, b)
  {
    if HostnamesMatch(a, b) {
      MatchGivesOverlap(a, b);
    }
    if Overlap(a, b) {
      var host: string :| Concrete(host) && Accepts(a, host) && Accepts(b, host);
      OverlapGivesMatch(a, b, host);
    }
  }

  lemma {:induction false} HostnamesMatchSymmetric(a: string, b: string)
    ensures HostnamesMatch(a, b) <==> HostnamesMatch(b, a)
  {
    HostnamesMatchDecidesOverlap(a, b);
    HostnamesMatchDecidesOverlap(b, a);
  }

  /** A route passes the listener's hostname check exactly when one of its hostnames overlaps it. */
  lemma {:induction false} RouteHostnameCheckIsOverlap(listener: Option<string>, hostnames: seq<string>)
    ensures RouteMatchesListenerHostname(listener, hostnames) <==>
            (listener.None? || hostnames == [] ||
             exists i | 0 <= i < |hostnames| :: Overlap(hostnames[i], listener.value))
  {
    if listener.Some? {
      forall i | 0 <= i < |hostnames|
        ensures HostnamesMatch(hostnames[i], listener.value) <==> Overlap(hostnames[i], listener.value)
      {
        HostnamesMatchDecidesOverlap(hostnames[i], listener.value);
      }
    }
  }
}
