// When a listener is ready, read off the fields of the gateway and the answers of the cluster: the rules of
// internal/k8s/reconciler/validator/gateway.go, written without the steps that decide them.

module ListenerRules {
  import opened Wrappers
  import opened Core
  import opened Gateways
  import opened Binder
  import opened Validator
  import Tls

  // ----- Texts --------------------------------------------------------------------------------------------

  predicate Blank(c: char) { c as int in {9, 10, 11, 12, 13, 32, 0x85, 0xA0} }

  /** part is suite with blanks around it; suite neither begins nor ends with one. */
  ghost predicate Pads(part: string, suite: string, before: string, after: string) {
    && part == before + suite + after
    && (forall i | 0 <= i < |before| :: Blank(before[i])) && (forall i | 0 <= i < |after| :: Blank(after[i]))
    && (suite != "" ==> !Blank(suite[0]) && !Blank(suite[|suite| - 1]))
  }

  ghost predicate Padded(part: string, suite: string) {
    exists before: string, after: string :: Pads(part, suite, before, after)
  }

  ghost function Joined(parts: seq<string>): string {
    if parts == [] then "" else if |parts| == 1 then parts[0] else parts[0] + "," + Joined(parts[1..])
  }

  /** text is the parts, none of which has a comma, with commas in between. */
  ghost predicate Separates(text: string, parts: seq<string>) {
    parts != [] && Joined(parts) == text && forall i | 0 <= i < |parts| :: ',' !in parts[i]
  }

  /** text lists the suites, separated by commas, with blanks allowed around each. */
  ghost predicate ListsSuites(text: string, suites: seq<string>) {
    exists parts: seq<string> ::
      Separates(text, parts) && |parts| == |suites| && forall i | 0 <= i < |parts| :: Padded(parts[i], suites[i])
  }

  lemma {:induction false} SplitSeparates(s: string)
    ensures Separates(s, SplitComma(s))
  {
    if s != "" {
      SplitSeparates(s[1..]);
      var rest, parts := SplitComma(s[1..]), SplitComma(s);
      if s[0] == ',' {
        assert parts[1..] == rest;
        assert Joined(parts) == "" + "," + Joined(rest) == [s[0]] + s[1..];
      } else {
        assert parts[1..] == rest[1..] && parts[0] == [s[0]] + rest[0];
        if |rest| > 1 {
          assert Joined(parts) == [s[0]] + (rest[0] + "," + Joined(rest[1..]));
        }
        assert Joined(parts) == [s[0]] + Joined(rest);
        assert forall i | 1 <= i < |parts| :: parts[i] == rest[i];
      }
      assert [s[0]] + s[1..] == s;
    }
  }

  /** There is one way only to separate a text at its commas. */
  lemma {:induction false} SeparatedOnce(s: string, parts: seq<string>)
    requires Separates(s, parts)
    ensures parts == SplitComma(s)
    decreases |s|, |parts|
  {
    if s == "" {
      assert |parts| > 1 ==> |Joined(parts)| > 0;
    } else if parts[0] == "" {
      assert |parts| > 1;
      assert s == "" + "," + Joined(parts[1..]);
      assert s[0] == ',' && s[1..] == Joined(parts[1..]);
      assert forall i | 0 <= i < |parts| - 1 :: parts[1..][i] == parts[i + 1];
      SeparatedOnce(s[1..], parts[1..]);
      assert parts == [""] + parts[1..];
    } else {
      var c, first := parts[0][0], parts[0][1..];
      assert parts[0] == [c] + first && c in parts[0];
      var shorter := [first] + parts[1..];
      assert shorter[1..] == parts[1..];
      assert s[0] == c && s[1..] == Joined(shorter);
      assert forall i | 0 <= i < |shorter| :: ',' !in shorter[i] by {
        assert forall x | x in first :: x in parts[0];
        assert forall i | 1 <= i < |shorter| :: shorter[i] == parts[i];
      }
      SeparatedOnce(s[1..], shorter);
      assert parts == [[c] + first] + parts[1..];
    }
  }

  lemma {:induction false} SpaceIsBlank(c: char)
    ensures IsSpace(c) <==> Blank(c)
  {}

  lemma {:induction false} LeftTrimmed(s: string) returns (before: string)
    ensures s == before + TrimLeft(s) && (forall i | 0 <= i < |before| :: Blank(before[i]))
    ensures TrimLeft(s) != "" ==> !Blank(TrimLeft(s)[0])
  {
    if s != "" && IsSpace(s[0]) {
      SpaceIsBlank(s[0]);
      var rest := LeftTrimmed(s[1..]);
      before := [s[0]] + rest;
      assert s == [s[0]] + s[1..];
      assert s == before + TrimLeft(s);
    } else {
      before := "";
      if s != "" { SpaceIsBlank(s[0]); }
      assert s == before + s;
    }
  }

  lemma {:induction false} RightTrimmed(s: string) returns (after: string)
    ensures s == TrimRight(s) + after && (forall i | 0 <= i < |after| :: Blank(after[i]))
    ensures TrimRight(s) != "" ==> !Blank(TrimRight(s)[|TrimRight(s)| - 1]) && TrimRight(s)[0] == s[0]
  {
    if s != "" && IsSpace(s[|s| - 1]) {
      SpaceIsBlank(s[|s| - 1]);
      var rest := RightTrimmed(s[..|s| - 1]);
      after := rest + [s[|s| - 1]];
      assert s == s[..|s| - 1] + [s[|s| - 1]];
      assert s == TrimRight(s) + after;
    } else {
      after := "";
      if s != "" { SpaceIsBlank(s[|s| - 1]); }
      assert s == s + after;
    }
  }

  lemma {:induction false} TrimmedIsPadded(part: string)
    ensures Padded(part, TrimRight(TrimLeft(part)))
  {
    var before := LeftTrimmed(part);
    var after := RightTrimmed(TrimLeft(part));
    var suite := TrimRight(TrimLeft(part));
    assert part == before + suite + after;
    assert Pads(part, suite, before, after);
  }

  lemma {:induction false} BlanksGo(s: string, t: string)
    requires forall i | 0 <= i < |s| :: Blank(s[i])
    requires t != "" ==> !Blank(t[0])
    ensures TrimLeft(s + t) == t
  {
    if s == "" {
      assert s + t == t;
      if t != "" { SpaceIsBlank(t[0]); }
    } else {
      SpaceIsBlank(s[0]);
      assert (s + t)[1..] == s[1..] + t;
      BlanksGo(s[1..], t);
    }
  }

  lemma {:induction false} BlanksGoRight(t: string, s: string)
    requires forall i | 0 <= i < |s| :: Blank(s[i])
    requires t != "" ==> !Blank(t[|t| - 1])
    ensures TrimRight(t + s) == t
    decreases |s|
  {
    if s == "" {
      assert t + s == t;
      if t != "" { SpaceIsBlank(t[|t| - 1]); }
    } else {
      SpaceIsBlank(s[|s| - 1]);
      assert (t + s)[..|t + s| - 1] == t + s[..|s| - 1];
      BlanksGoRight(t, s[..|s| - 1]);
    }
  }

  lemma {:induction false} PaddedIsTrimmed(part: string, suite: string)
    requires Padded(part, suite)
    ensures TrimRight(TrimLeft(part)) == suite
  {
    var before: string, after: string :| Pads(part, suite, before, after);
    if suite == "" {
      assert part == (before + after) + "";
      BlanksGo(before + after, "");
    } else {
      assert part == before + (suite + after);
      BlanksGo(before, suite + after);
      BlanksGoRight(suite, after);
    }
  }

  lemma {:induction false} SuitesListedIff(text: string, suites: seq<string>)
    ensures ListsSuites(text, suites) <==> suites == TrimAll(SplitComma(text))
  {
    var parts := SplitComma(text);
    SplitSeparates(text);
    if suites == TrimAll(parts) {
      forall i | 0 <= i < |parts|
        ensures Padded(parts[i], suites[i])
      {
        TrimmedIsPadded(parts[i]);
      }
    }
    if ListsSuites(text, suites) {
      var ps: seq<string> :|
        Separates(text, ps) && |ps| == |suites| && forall i | 0 <= i < |ps| :: Padded(ps[i], suites[i]);
      SeparatedOnce(text, ps);
      forall i | 0 <= i < |ps|
        ensures TrimAll(parts)[i] == suites[i]
      {
        PaddedIsTrimmed(ps[i], suites[i]);
      }
    }
  }

  // ----- TLS options ---------------------------------------------------------------------------------------

  /** The text of an option of the listener, empty if it is not given. */
  ghost predicate OptionIs(l: Listener, key: string, text: string) {
    var name := "api-gateway.consul.hashicorp.com/" + key;
    if l.tls.Some? && name in l.tls.value.options then text == l.tls.value.options[name] else text == ""
  }

  ghost predicate KnownVersion(v: string) { v in {"TLS_AUTO", "TLSv1_0", "TLSv1_1", "TLSv1_2", "TLSv1_3"} }

  ghost predicate KnownSuite(c: string) {
    c in {"TLS_ECDHE_ECDSA_WITH_AES_128_GCM_SHA256", "TLS_ECDHE_ECDSA_WITH_CHACHA20_POLY1305_SHA256",
          "TLS_ECDHE_RSA_WITH_AES_128_GCM_SHA256", "TLS_ECDHE_RSA_WITH_CHACHA20_POLY1305_SHA256",
          "TLS_ECDHE_ECDSA_WITH_AES_256_GCM_SHA384", "TLS_ECDHE_RSA_WITH_AES_256_GCM_SHA384",
          "TLS_RSA_WITH_AES_128_GCM_SHA256", "TLS_RSA_WITH_AES_128_CBC_SHA", "TLS_RSA_WITH_AES_256_GCM_SHA384",
          "TLS_RSA_WITH_AES_256_CBC_SHA", "TLS_ECDHE_ECDSA_WITH_AES_128_CBC_SHA",
          "TLS_ECDHE_RSA_WITH_AES_128_CBC_SHA", "TLS_ECDHE_ECDSA_WITH_AES_256_CBC_SHA",
          "TLS_ECDHE_RSA_WITH_AES_256_CBC_SHA"}
  }

  /** Known versions, and known suites where suites are given, which TLS 1.3 does not allow. */
  ghost predicate OptionsFit(min: string, max: string, text: string, suites: seq<string>) {
    && (min == "" || KnownVersion(min)) && (max == "" || KnownVersion(max))
    && (min == "TLSv1_3" ==> text == "")
    && (text != "" ==> ListsSuites(text, suites) && forall c | c in suites :: KnownSuite(c))
  }

  /** What the listener's options say, in order. */
  ghost predicate Asks(l: Listener, min: string, max: string, text: string) {
    && OptionIs(l, "tls_min_version", min) && OptionIs(l, "tls_max_version", max)
    && OptionIs(l, "tls_cipher_suites", text)
  }

  ghost predicate AsksWhatFits(l: Listener) {
    exists min, max, text, suites: seq<string> :: Asks(l, min, max, text) && OptionsFit(min, max, text, suites)
  }

  lemma {:induction false} VersionKnown(v: string)
    ensures Tls.SupportedVersion(v) <==> KnownVersion(v)
    ensures v == "" || KnownVersion(v) ==> (Tls.CipherSuitesConfigurable(v) <==> v != "TLSv1_3")
  {}

  lemma {:induction false} SuiteKnown(c: string)
    ensures Tls.SupportedCipherSuite(c) <==> KnownSuite(c)
  {}

  lemma {:induction false} SuitesKnown(suites: seq<string>)
    ensures AllSupported(suites) <==> forall c | c in suites :: KnownSuite(c)
  {
    forall c: string
      ensures Tls.SupportedCipherSuite(c) <==> KnownSuite(c)
    {
      SuiteKnown(c);
    }
  }

  lemma {:induction false} AcceptableIff(o: TlsOptions, minKnown: bool, maxKnown: bool, suitesKnown: bool)
    requires o.minSupported == minKnown && o.maxSupported == maxKnown && o.suitesSupported == suitesKnown
    requires o.minVersion == "" || minKnown ==> o.minConfigurable == (o.minVersion != "TLSv1_3")
    ensures o.Acceptable() <==>
            && (o.minVersion == "" || minKnown) && (o.maxVersion == "" || maxKnown)
            && (o.minVersion == "TLSv1_3" ==> o.suites == "") && (o.suites != "" ==> suitesKnown)
  {}

  lemma {:induction false} OptionsRead(l: Listener, min: string, max: string, text: string)
    ensures Asks(l, min, max, text) <==>
            min == OptionsOf(l).minVersion && max == OptionsOf(l).maxVersion && text == OptionsOf(l).suites
  {}

  lemma {:induction false} OptionsJudged(l: Listener)
    ensures var o := OptionsOf(l); o.Acceptable() <==> OptionsFit(o.minVersion, o.maxVersion, o.suites, o.trimmed)
  {
    var o := OptionsOf(l);
    SuitesListedIff(o.suites, o.trimmed);
    VersionKnown(o.minVersion);
    VersionKnown(o.maxVersion);
    SuitesKnown(o.trimmed);
    AcceptableIff(o, KnownVersion(o.minVersion), KnownVersion(o.maxVersion),
                  forall c | c in o.trimmed :: KnownSuite(c));
  }

  lemma {:induction false} AcceptableIffFits(l: Listener)
    ensures OptionsOf(l).Acceptable() <==> AsksWhatFits(l)
  {
    var o := OptionsOf(l);
    OptionsJudged(l);
    OptionsRead(l, o.minVersion, o.maxVersion, o.suites);
    assert Asks(l, o.minVersion, o.maxVersion, o.suites);
    if AsksWhatFits(l) {
      var min, max, text, suites: seq<string> :| Asks(l, min, max, text) && OptionsFit(min, max, text, suites);
      OptionsRead(l, min, max, text);
      SuitesListedIff(text, suites);
      assert OptionsFit(o.minVersion, o.maxVersion, o.suites, suites);
    }
  }

  // ----- Certificates ----------------------------------------------------------------------------------------

  ghost predicate FromFits(f: GrantFrom, v: Env, g: GatewaySpec) {
    f.group == v.gatewayGroup && f.kind == v.gatewayKind && f.namespace == g.namespace
  }

  ghost predicate ToFits(t: GrantTo, ref: SecretRef) {
    && t.group == (if ref.group.Some? then ref.group.value else "")
    && t.kind == (if ref.kind.Some? then ref.kind.value else "Secret")
    && t.name in {None, Some(""), Some(ref.name)}
  }

  /** The grant lets this gateway refer to what the reference names, by default a secret of the core group. */
  ghost predicate GrantFits(grant: ReferenceGrant, v: Env, g: GatewaySpec, ref: SecretRef) {
    (exists f | f in grant.from :: FromFits(f, v, g)) && (exists t | t in grant.to :: ToFits(t, ref))
  }

  ghost predicate GrantedBy(grants: Option<seq<ReferenceGrant>>, v: Env, g: GatewaySpec, ref: SecretRef) {
    grants.Some? && exists x | x in grants.value :: GrantFits(x, v, g, ref)
  }

  /** A reference within the gateway's namespace needs no grant. */
  ghost predicate Permits(v: Env, g: GatewaySpec, ref: SecretRef) {
    ref.namespace in {None, Some(""), Some(g.namespace)} || GrantedBy(v.grants(ref.namespace.value), v, g, ref)
  }

  /** The reference is to an existing secret, of the gateway's namespace or one that a grant opens to it. */
  ghost predicate CertificateFits(v: Env, g: GatewaySpec, ref: SecretRef) {
    && (ref.kind.None? || ref.kind == Some("Secret")) && (ref.group.None? || ref.group == Some(""))
    && v.secret(if ref.namespace.Some? then ref.namespace.value else g.namespace, ref.name).Present?
    && Permits(v, g, ref)
  }

  ghost predicate GrantsRef(grant: ReferenceGrant, v: Env, g: GatewaySpec, ref: SecretRef) {
    Grants(grant, GrantFrom(v.gatewayGroup, v.gatewayKind, g.namespace), Or(ref.group, ""), Or(ref.kind, "Secret"),
           ref.name)
  }

  lemma {:induction false} ToFitsIff(t: GrantTo, ref: SecretRef)
    ensures ToApplies(t, Or(ref.group, ""), Or(ref.kind, "Secret"), ref.name) <==> ToFits(t, ref)
  {}

  lemma {:induction false} GrantsIff(grant: ReferenceGrant, v: Env, g: GatewaySpec, ref: SecretRef)
    ensures GrantsRef(grant, v, g, ref) <==> GrantFits(grant, v, g, ref)
  {
    forall i | 0 <= i < |grant.from|
      ensures grant.from[i] in grant.from
      ensures FromApplies(grant.from[i], v.gatewayGroup, v.gatewayKind, g.namespace) <==> FromFits(grant.from[i], v, g)
    {
    }
    forall i | 0 <= i < |grant.to|
      ensures grant.to[i] in grant.to
      ensures ToApplies(grant.to[i], Or(ref.group, ""), Or(ref.kind, "Secret"), ref.name) <==> ToFits(grant.to[i], ref)
    {
      ToFitsIff(grant.to[i], ref);
    }
  }

  lemma {:induction false} GrantedIff(v: Env, g: GatewaySpec, ref: SecretRef)
    requires ref.namespace.Some?
    ensures GrantedAcross(v, g, ref) <==> GrantedBy(v.grants(ref.namespace.value), v, g, ref)
  {
    if v.grants(ref.namespace.value).Some? {
      var grants := v.grants(ref.namespace.value).value;
      forall i | 0 <= i < |grants|
        ensures grants[i] in grants && (GrantsRef(grants[i], v, g, ref) <==> GrantFits(grants[i], v, g, ref))
      {
        GrantsIff(grants[i], v, g, ref);
      }
    }
  }

  lemma {:induction false} CertificateFitsIff(v: Env, g: GatewaySpec, ref: SecretRef)
    ensures CertificateUsable(v, g, ref) <==> CertificateFits(v, g, ref)
  {
    if ref.namespace.Some? {
      GrantedIff(v, g, ref);
    }
  }

  // ----- The listener ------------------------------------------------------------------------------------------

  ghost predicate Takes(p: Protocol, k: RouteGroupKind) {
    && k.group == Some("gateway.networking.k8s.io")
    && ((k.kind == "HTTPRoute" && p in {HTTP, HTTPS}) || (k.kind == "TCPRoute" && p == TCP))
  }

  /** The listener's protocol takes every kind of route that the listener names. */
  ghost predicate KindsFit(l: Listener) {
    l.allowedRoutes.Some? ==> forall k | k in l.allowedRoutes.value.kinds :: Takes(l.protocol, k)
  }

  ghost predicate TlsFits(v: Env, g: GatewaySpec, l: Listener) {
    match l.tls
    case None => !l.protocol.HTTPS? && !l.protocol.TLS?
    case Some(tls) =>
      && !tls.passthrough && tls.certificateRefs != [] && CertificateFits(v, g, tls.certificateRefs[0])
      && AsksWhatFits(l)
  }

  ghost predicate Fits(v: Env, g: GatewaySpec, l: Listener) {
    g.addresses == [] && l.protocol in {HTTP, HTTPS, TCP} && KindsFit(l) && TlsFits(v, g, l)
  }

  lemma {:induction false} TakesIff(p: Protocol, k: RouteGroupKind)
    ensures k in SupportedKinds(p) <==> Takes(p, k)
  {}

  lemma {:induction false} KindsFitIff(l: Listener)
    ensures SupportedKinds(l.protocol) != [] <==> l.protocol in {HTTP, HTTPS, TCP}
    ensures KindsSupported(l) <==> KindsFit(l)
  {
    if l.allowedRoutes.Some? {
      var kinds := l.allowedRoutes.value.kinds;
      forall i | 0 <= i < |kinds|
        ensures kinds[i] in kinds && (kinds[i] in SupportedKinds(l.protocol) <==> Takes(l.protocol, kinds[i]))
      {
        TakesIff(l.protocol, kinds[i]);
      }
    }
  }

  lemma {:induction false} TlsFitsIff(v: Env, g: GatewaySpec, l: Listener)
    ensures TlsAcceptable(v, g, l, OptionsOf(l)) <==> TlsFits(v, g, l)
  {
    AcceptableIffFits(l);
    if l.tls.Some? && l.tls.value.certificateRefs != [] {
      CertificateFitsIff(v, g, l.tls.value.certificateRefs[0]);
    }
  }

  lemma {:induction false} FitsIff(v: Env, g: GatewaySpec, l: Listener)
    ensures InOrder(v, g, l, OptionsOf(l)) <==> Fits(v, g, l)
  {
    KindsFitIff(l);
    TlsFitsIff(v, g, l);
  }

  /** The settings are the versions and the suites the listener asks for. */
  ghost predicate Carries(l: Listener, t: TLSParams, text: string) {
    && Asks(l, t.minVersion, t.maxVersion, text)
    && if text == "" then t.cipherSuites == [] else ListsSuites(text, t.cipherSuites)
  }

  lemma {:induction false} CarriesItsOptions(v: Env, g: Gateway, i: nat)
    requires Validated(v, g) && i < |g.states| && !g.states[i].status.ReadyHasError() && g.spec.listeners[i].tls.Some?
    ensures Carries(g.spec.listeners[i], g.states[i].tls, OptionsOf(g.spec.listeners[i]).suites)
  {
    var l, o, t := g.spec.listeners[i], OptionsOf(g.spec.listeners[i]), g.states[i].tls;
    ReadyListeners(v, g, i);
    assert ValidatedAt(v, g.spec, i, g.states[i]);
    JudgedIff(v, g.spec, l, o);
    assert t.minVersion == o.minVersion && t.maxVersion == o.maxVersion;
    assert t.cipherSuites == if o.suites == "" then [] else o.trimmed;
    OptionsRead(l, o.minVersion, o.maxVersion, o.suites);
    SuitesListedIff(o.suites, o.trimmed);
  }

  /**
   * A validated listener has no Ready error exactly if its gateway asks for no addresses, its protocol and
   * route kinds are known, its certificate may be used, its TLS options are known, and no other listener of
   * its port has another protocol and no two of them different hosts. It then carries that certificate and
   * exactly those options.
   */
  lemma {:induction false} ReadyIffFits(v: Env, g: Gateway, i: nat)
    requires Validated(v, g) && i < |g.states|
    ensures var l, st := g.spec.listeners[i], g.states[i];
            && (!st.status.readyInvalid && !st.status.readyPending <==>
                  Fits(v, g.spec, l) && !ProtocolsClash(g.spec.listeners, i) &&
                  !HostnamesClash(g.spec.listeners, i))
            && (!st.status.readyInvalid && !st.status.readyPending && l.tls.Some? ==>
                  var ref := l.tls.value.certificateRefs[0];
                  && st.tls.certificates ==
                     [v.secretName(if ref.namespace.Some? then ref.namespace.value else g.spec.namespace, ref.name)]
                  && exists text :: Carries(l, st.tls, text))
  {
    ReadyListeners(v, g, i);
    FitsIff(v, g.spec, g.spec.listeners[i]);
    if !g.states[i].status.readyInvalid && !g.states[i].status.readyPending && g.spec.listeners[i].tls.Some? {
      CarriesItsOptions(v, g, i);
    }
  }

  // ----- When the cluster cannot answer ------------------------------------------------------------------------

  /** The grants, or then the secret, of the listener's certificate cannot be looked up. */
  ghost predicate Unanswered(v: Env, g: GatewaySpec, l: Listener) {
    && l.tls.Some? && !l.tls.value.passthrough && l.tls.value.certificateRefs != []
    && var ref := l.tls.value.certificateRefs[0];
       || (ref.namespace !in {None, Some(""), Some(g.namespace)} && v.grants(ref.namespace.value).None?)
       || (&& (ref.kind.None? || ref.kind == Some("Secret")) && (ref.group.None? || ref.group == Some(""))
           && v.secret(if ref.namespace.Some? then ref.namespace.value else g.namespace, ref.name).LookupFailed?
           && Permits(v, g, ref))
  }

  lemma {:induction false} PermitsIff(v: Env, g: GatewaySpec, ref: SecretRef)
    requires GatewayAllowedForSecretRef(v, g, ref).Some?
    ensures GatewayAllowedForSecretRef(v, g, ref).value <==> Permits(v, g, ref)
  {
    if ref.namespace.Some? {
      GrantedIff(v, g, ref);
    }
  }

  /** Validation gives up on the gateway exactly if the cluster cannot answer for one of its listeners. */
  lemma {:induction false} UnansweredIff(v: Env, g: GatewaySpec, l: Listener)
    ensures JudgeTLS(v, g, l).ClusterError? <==> Unanswered(v, g, l)
  {
    if l.tls.Some? && !l.tls.value.passthrough && l.tls.value.certificateRefs != [] {
      var ref := l.tls.value.certificateRefs[0];
      if GatewayAllowedForSecretRef(v, g, ref).Some? {
        PermitsIff(v, g, ref);
      }
    }
  }

  // ----- What the status of a listener reports -----------------------------------------------------------------

  /** The certificate reference that is judged: the first, where TLS is terminated. */
  ghost predicate Judges(l: Listener, ref: SecretRef) {
    l.tls.Some? && !l.tls.value.passthrough && l.tls.value.certificateRefs != [] &&
    ref == l.tls.value.certificateRefs[0]
  }

  ghost predicate IsMissing(v: Env, g: GatewaySpec, ref: SecretRef) {
    ref.kind !in {None, Some("Secret")} || ref.group !in {None, Some("")} ||
    v.secret(if ref.namespace.Some? then ref.namespace.value else g.namespace, ref.name).Absent?
  }

  ghost predicate Reports(v: Env, g: GatewaySpec, l: Listener, s: ListenerStatus) {
    && (s.unsupportedAddress <==> g.addresses != [])
    && (s.unsupportedProtocol <==> l.protocol !in {HTTP, HTTPS, TCP})
    && (s.invalidRouteKinds <==>
          l.allowedRoutes.Some? && exists k | k in l.allowedRoutes.value.kinds :: !Takes(l.protocol, k))
    && (s.refNotPermitted <==> exists ref | Judges(l, ref) :: !Permits(v, g, ref))
    && (s.invalidCertificateRef <==>
          (l.tls.Some? && !l.tls.value.passthrough && l.tls.value.certificateRefs == []) ||
          exists ref | Judges(l, ref) :: Permits(v, g, ref) && IsMissing(v, g, ref))
    && !s.routeConflict && !s.readyPending
  }

  /** Which of the two complaints about a certificate reference the chain of checks ends in. */
  lemma {:induction false} JudgedByFields(v: Env, g: GatewaySpec, l: Listener)
    requires !JudgeTLS(v, g, l).ClusterError?
    ensures JudgeTLS(v, g, l).NotPermitted? <==> exists ref | Judges(l, ref) :: !Permits(v, g, ref)
    ensures JudgeTLS(v, g, l).BadCertificate? <==>
            (l.tls.Some? && !l.tls.value.passthrough && l.tls.value.certificateRefs == []) ||
            exists ref | Judges(l, ref) :: Permits(v, g, ref) && IsMissing(v, g, ref)
  {
    if l.tls.Some? && !l.tls.value.passthrough && l.tls.value.certificateRefs != [] {
      var ref := l.tls.value.certificateRefs[0];
      assert Judges(l, ref);
      PermitsIff(v, g, ref);
    }
  }

  /** The same complaints, whatever is said about readiness. */
  predicate Alike(s: ListenerStatus, t: ListenerStatus) { s == t.(readyInvalid := s.readyInvalid) }

  lemma {:induction false} SettleKeeps(st: ListenerState)
    ensures Alike(Settle(st).status, st.status)
  {
    var t := st.status.(readyInvalid := true);
    assert Settle(st) == st || Settle(st) == st.(status := t);
    assert Alike(t, st.status) && Alike(st.status, st.status);
  }

  lemma {:induction false} RecordSays(j: TlsVerdict, o: TlsOptions, st: ListenerState)
    requires !j.ClusterError? && !st.status.invalidCertificateRef && !st.status.refNotPermitted
    ensures Alike(Record(j, o, st).status,
                  st.status.(refNotPermitted := j.NotPermitted?, invalidCertificateRef := j.BadCertificate?))
  {}

  /** Every complaint in the status of a validated listener, by the field of the gateway it is about. */
  lemma {:induction false} ReportsByFields(v: Env, g: Gateway, i: nat)
    requires Validated(v, g) && i < |g.states|
    ensures Reports(v, g.spec, g.spec.listeners[i], g.states[i].status)
  {
    var l, o := g.spec.listeners[i], OptionsOf(g.spec.listeners[i]);
    assert ValidatedAt(v, g.spec, i, g.states[i]);
    var marked := Marked(g.spec.listeners, i, InitialListenerState(l));
    JudgedByFields(v, g.spec, l);
    KindsFitIff(l);
    var j, checked := JudgeTLS(v, g.spec, l), marked.(status := Checked(g.spec, l, marked.status));
    RecordSays(j, o, checked);
    SettleKeeps(Record(j, o, checked));
  }
}
