// Validating the listeners of a gateway (internal/k8s/reconciler/validator/gateway.go and utils.go).

module Validator {
  import opened Wrappers
  import opened Core
  import opened Gateways
  import opened Binder
  import Tls

  // ----- What validation consults ------------------------------------------------------------------------------

  datatype GrantFrom = GrantFrom(group: string, kind: string, namespace: string)
  datatype GrantTo = GrantTo(group: string, kind: string, name: Option<string>)
  datatype ReferenceGrant = ReferenceGrant(from: seq<GrantFrom>, to: seq<GrantTo>)

  datatype Lookup = Present | Absent | LookupFailed

  /** The cluster: grants by namespace (None if listing fails), secrets, and how a secret is named in SDS. */
  datatype Env = Env(grants: string -> Option<seq<ReferenceGrant>>,
                     secret: (string, string) -> Lookup,
                     secretName: (string, string) -> string,
                     gatewayGroup: string, gatewayKind: string)

  // ----- Reference grants ------------------------------------------------------------------------------------------

  predicate FromApplies(f: GrantFrom, group: string, kind: string, namespace: string) {
    f.group == group && f.kind == kind && f.namespace == namespace
  }

  /** A grant without a name, or with an empty one, covers every object of the kind. */
  predicate ToApplies(t: GrantTo, group: string, kind: string, name: string) {
    t.group == group && t.kind == kind && (t.name.None? || t.name.value == "" || t.name.value == name)
  }

  predicate Grants(g: ReferenceGrant, from: GrantFrom, toGroup: string, toKind: string, toName: string) {
    && (exists i | 0 <= i < |g.from| :: FromApplies(g.from[i], from.group, from.kind, from.namespace))
    && (exists i | 0 <= i < |g.to| :: ToApplies(g.to[i], toGroup, toKind, toName))
  }

  /** A reference into another namespace is allowed when one grant has both a From and a To that apply. */
  predicate Allowed(grants: seq<ReferenceGrant>, from: GrantFrom, toGroup: string, toKind: string, toName: string) {
    exists i | 0 <= i < |grants| :: Grants(grants[i], from, toGroup, toKind, toName)
  }

  method ReferenceAllowed(v: Env, from: GrantFrom, toGroup: string, toKind: string, toNS: string, toName: string)
    returns (allowed: Option<bool>)
    ensures allowed == Permission(v, from, toGroup, toKind, toNS, toName)
  {
    if toNS == "" || toNS == from.namespace {
      return Some(true);
    }
    var listed := v.grants(toNS);
    if listed.None? {
      return None;
    }
    var grants := listed.value;
    for i := 0 to |grants|
      invariant forall j | 0 <= j < i :: !Grants(grants[j], from, toGroup, toKind, toName)
    {
      var g := grants[i];
      var fromMatch := false;
      for j := 0 to |g.from|
        invariant !fromMatch && forall k | 0 <= k < j :: !FromApplies(g.from[k], from.group, from.kind, from.namespace)
      {
        if FromApplies(g.from[j], from.group, from.kind, from.namespace) {
          fromMatch := true;
          break;
        }
      }
      if !fromMatch {
        continue;
      }
      for j := 0 to |g.to|
        invariant forall k | 0 <= k < j :: !ToApplies(g.to[k], toGroup, toKind, toName)
      {
        if ToApplies(g.to[j], toGroup, toKind, toName) {
          assert Grants(grants[i], from, toGroup, toKind, toName);
          return Some(true);
        }
      }
    }
    return Some(false);
  }

  /** None when the grants cannot be listed, which matters only across namespaces. */
  function Permission(v: Env, from: GrantFrom, toGroup: string, toKind: string, toNS: string,
                      toName: string): Option<bool> {
    if toNS == "" || toNS == from.namespace then Some(true)
    else match v.grants(toNS)
      case None => None
      case Some(grants) => Some(Allowed(grants, from, toGroup, toKind, toName))
  }

  // ----- TLS --------------------------------------------------------------------------------------------------------

  const OPTION_PREFIX := "api-gateway.consul.hashicorp.com/"

  function OptionValue(options: map<string, string>, key: string): string {
    if OPTION_PREFIX + key in options then options[OPTION_PREFIX + key] else ""
  }

  function SplitComma(s: string): (parts: seq<string>)
    ensures parts != []
  {
    if s == "" then [""]
    else
      var rest := SplitComma(s[1..]);
      if s[0] == ',' then [""] + rest else [[s[0]] + rest[0]] + rest[1..]
  }

  predicate IsSpace(c: char) { c == ' ' || 9 <= c as int <= 13 || c as int == 0x85 || c as int == 0xA0 }

  function TrimLeft(s: string): string { if s != "" && IsSpace(s[0]) then TrimLeft(s[1..]) else s }

  function TrimRight(s: string): string { if s != "" && IsSpace(s[|s| - 1]) then TrimRight(s[..|s| - 1]) else s }

  function TrimAll(parts: seq<string>): seq<string> {
    seq(|parts|, i requires 0 <= i < |parts| => TrimRight(TrimLeft(parts[i])))
  }

  predicate AllSupported(suites: seq<string>) {
    forall i | 0 <= i < |suites| :: Tls.SupportedCipherSuite(suites[i])
  }

  /** What a listener's options ask for, and whether each part is something Envoy can be given. */
  datatype TlsOptions = TlsOptions(minVersion: string, maxVersion: string, suites: string,
                                   minSupported: bool, minConfigurable: bool, maxSupported: bool,
                                   trimmed: seq<string>, suitesSupported: bool)
  {
    predicate MinAcceptable() {
      minVersion == "" || (minSupported && (suites == "" || minConfigurable))
    }
    predicate MaxAcceptable() { maxVersion == "" || maxSupported }
    predicate SuitesAcceptable() { suites == "" || suitesSupported }
    predicate Acceptable() { MinAcceptable() && MaxAcceptable() && SuitesAcceptable() }
  }

  function ReadOptions(options: map<string, string>): TlsOptions {
    var minV, maxV, suites := OptionValue(options, "tls_min_version"), OptionValue(options, "tls_max_version"),
                              OptionValue(options, "tls_cipher_suites");
    var trimmed := TrimAll(SplitComma(suites));
    TlsOptions(minV, maxV, suites, Tls.SupportedVersion(minV), Tls.CipherSuitesConfigurable(minV),
               Tls.SupportedVersion(maxV), trimmed, AllSupported(trimmed))
  }

  /** Versions first, then cipher suites; a step that fails keeps the settings made before it. */
  function TlsWith(t: TLSParams, o: TlsOptions): TLSParams {
    if !o.MinAcceptable() then t
    else
      var t1 := if o.minVersion != "" then t.(minVersion := o.minVersion) else t;
      if !o.MaxAcceptable() then t1
      else
        var t2 := if o.maxVersion != "" then t1.(maxVersion := o.maxVersion) else t1;
        if o.suites == "" || !o.suitesSupported then t2 else t2.(cipherSuites := o.trimmed)
  }

  function Or(o: Option<string>, default: string): string { if o.Some? then o.value else default }

  function GatewayAllowedForSecretRef(v: Env, g: GatewaySpec, ref: SecretRef): Option<bool> {
    Permission(v, GrantFrom(v.gatewayGroup, v.gatewayKind, g.namespace), Or(ref.group, ""), Or(ref.kind, "Secret"),
               Or(ref.namespace, ""), ref.name)
  }

  predicate IsSecretRef(ref: SecretRef) { Or(ref.kind, "Secret") == "Secret" && Or(ref.group, "") == "" }

  datatype TlsVerdict = ClusterError | NoTls | Unusable | BadCertificate | NotPermitted | Certificate(name: string)

  /** Where the chain of checks on a listener's TLS block ends. */
  function JudgeTLS(v: Env, g: GatewaySpec, l: Listener): TlsVerdict {
    match l.tls
    case None => if ProtocolToConsul(l.protocol).1 then Unusable else NoTls
    case Some(tls) =>
      if tls.passthrough then Unusable
      else if tls.certificateRefs == [] then BadCertificate
      else
        var ref := tls.certificateRefs[0];
        match GatewayAllowedForSecretRef(v, g, ref)
        case None => ClusterError
        case Some(allowed) =>
          if !allowed then NotPermitted
          else if !IsSecretRef(ref) then BadCertificate
          else match v.secret(Or(ref.namespace, g.namespace), ref.name)
            case LookupFailed => ClusterError
            case Absent => BadCertificate
            case Present => Certificate(CertificateName(v, g, ref))
  }

  /** What the verdict writes into the listener's state. */
  function Record(j: TlsVerdict, o: TlsOptions, st: ListenerState): ListenerState
    requires !j.ClusterError?
  {
    match j
    case NoTls => st
    case Unusable => st.(status := st.status.(readyInvalid := true))
    case BadCertificate => st.(status := st.status.(invalidCertificateRef := true))
    case NotPermitted => st.(status := st.status.(refNotPermitted := true))
    case Certificate(name) =>
      st.(tls := TlsWith(st.tls.(certificates := [name]), o),
          status := st.status.(readyInvalid := st.status.readyInvalid || !o.Acceptable()))
  }

  function CertificateName(v: Env, g: GatewaySpec, ref: SecretRef): string {
    v.secretName(Or(ref.namespace, g.namespace), ref.name)
  }

  // ----- One listener ------------------------------------------------------------------------------------------------

  function SupportedKinds(p: Protocol): seq<RouteGroupKind> {
    var o := SupportedKindsFor(p); if o.Some? then o.value else []
  }

  /** Every route kind the listener allows is one its protocol supports. */
  predicate KindsSupported(l: Listener) {
    l.allowedRoutes.Some? ==>
      forall i | 0 <= i < |l.allowedRoutes.value.kinds| :: l.allowedRoutes.value.kinds[i] in SupportedKinds(l.protocol)
  }

  function Checked(g: GatewaySpec, l: Listener, st: ListenerStatus): ListenerStatus {
    st.(unsupportedAddress := st.unsupportedAddress || g.addresses != [],
        unsupportedProtocol := st.unsupportedProtocol || SupportedKinds(l.protocol) == [],
        invalidRouteKinds := st.invalidRouteKinds || !KindsSupported(l))
  }

  function Settle(st: ListenerState): ListenerState {
    if !st.status.readyInvalid && !st.status.Valid() then st.(status := st.status.(readyInvalid := true)) else st
  }

  /** None is an error of the cluster, on which validation of the whole gateway gives up. */
  function ValidateListener(v: Env, g: GatewaySpec, l: Listener, o: TlsOptions,
                            st: ListenerState): Option<ListenerState> {
    var j := JudgeTLS(v, g, l);
    if j.ClusterError? then None else Some(Settle(Record(j, o, st.(status := Checked(g, l, st.status)))))
  }

  // ----- When is a listener ready? -----------------------------------------------------------------------------------

  /** The certificate is a secret that exists and that the gateway may refer to. */
  ghost predicate CertificateUsable(v: Env, g: GatewaySpec, ref: SecretRef) {
    && IsSecretRef(ref)
    && v.secret(Or(ref.namespace, g.namespace), ref.name) == Present
    && (Or(ref.namespace, "") == "" || ref.namespace.value == g.namespace || GrantedAcross(v, g, ref))
  }

  /** A grant in the secret's namespace lets this gateway refer to the secret. */
  ghost predicate GrantedAcross(v: Env, g: GatewaySpec, ref: SecretRef)
    requires ref.namespace.Some?
  {
    var grants := v.grants(ref.namespace.value);
    grants.Some? && exists i | 0 <= i < |grants.value| ::
      Grants(grants.value[i], GrantFrom(v.gatewayGroup, v.gatewayKind, g.namespace), Or(ref.group, ""),
             Or(ref.kind, "Secret"), ref.name)
  }

  ghost predicate TlsAcceptable(v: Env, g: GatewaySpec, l: Listener, o: TlsOptions) {
    if l.tls.None? then !ProtocolToConsul(l.protocol).1
    else !l.tls.value.passthrough && l.tls.value.certificateRefs != [] &&
         CertificateUsable(v, g, l.tls.value.certificateRefs[0]) && o.Acceptable()
  }

  /** Everything about the listener itself is in order; conflicts with other listeners are separate. */
  ghost predicate InOrder(v: Env, g: GatewaySpec, l: Listener, o: TlsOptions) {
    g.addresses == [] && SupportedKinds(l.protocol) != [] && KindsSupported(l) && TlsAcceptable(v, g, l, o)
  }

  /** No check but the one for conflicts has been made yet. */
  predicate Unchecked(st: ListenerState) {
    st.tls == NO_TLS && st.status ==
      CLEAR_STATUS.(hostnameConflict := st.status.hostnameConflict, protocolConflict := st.status.protocolConflict)
  }

  lemma {:induction false} PermittedIff(v: Env, g: GatewaySpec, ref: SecretRef)
    requires GatewayAllowedForSecretRef(v, g, ref).Some?
    ensures GatewayAllowedForSecretRef(v, g, ref).value <==>
            Or(ref.namespace, "") == "" || ref.namespace.value == g.namespace || GrantedAcross(v, g, ref)
  {}

  lemma {:induction false} JudgedIff(v: Env, g: GatewaySpec, l: Listener, o: TlsOptions)
    requires !JudgeTLS(v, g, l).ClusterError?
    ensures var j := JudgeTLS(v, g, l);
            && (TlsAcceptable(v, g, l, o) <==> j.NoTls? || (j.Certificate? && o.Acceptable()))
            && (j.Certificate? ==>
                  l.tls.Some? && l.tls.value.certificateRefs != [] &&
                  j.name == CertificateName(v, g, l.tls.value.certificateRefs[0]))
            && (j.NoTls? ==> l.tls.None?)
  {
    if l.tls.Some? && !l.tls.value.passthrough && l.tls.value.certificateRefs != [] {
      PermittedIff(v, g, l.tls.value.certificateRefs[0]);
    }
  }

  lemma {:induction false} SuitesSupported(t: TLSParams, o: TlsOptions)
    requires t.cipherSuites == []
    ensures TlsWith(t, o).cipherSuites == [] || (o.suitesSupported && TlsWith(t, o).cipherSuites == o.trimmed)
    ensures TlsWith(t, o).certificates == t.certificates
  {}

  predicate Clean(j: TlsVerdict, o: TlsOptions) { j.NoTls? || (j.Certificate? && o.Acceptable()) }

  lemma {:induction false} RecordedStatus(j: TlsVerdict, o: TlsOptions, st: ListenerState)
    requires !j.ClusterError? && !st.status.readyInvalid && !st.status.invalidCertificateRef &&
             !st.status.refNotPermitted
    ensures var s := Settle(Record(j, o, st)).status;
            && (!s.readyInvalid <==> st.status.Valid() && Clean(j, o))
            && (!s.readyInvalid ==> s.Valid())
            && s.readyPending == st.status.readyPending
  {
    match j
    case NoTls =>
    case Unusable =>
    case BadCertificate =>
    case NotPermitted =>
    case Certificate(_) =>
  }

  lemma {:induction false} RecordedConflicts(j: TlsVerdict, o: TlsOptions, st: ListenerState)
    requires !j.ClusterError?
    ensures Settle(Record(j, o, st)).status.hostnameConflict == st.status.hostnameConflict
    ensures Settle(Record(j, o, st)).status.protocolConflict == st.status.protocolConflict
  {
    match j
    case NoTls =>
    case Unusable =>
    case BadCertificate =>
    case NotPermitted =>
    case Certificate(_) =>
  }

  lemma {:induction false} RecordedRest(j: TlsVerdict, o: TlsOptions, st: ListenerState)
    requires !j.ClusterError? && st.tls == NO_TLS
    ensures var st' := Settle(Record(j, o, st));
            && st'.routes == st.routes && st'.protocol == st.protocol && st'.name == st.name
            && st'.tls.certificates == (if j.Certificate? then [j.name] else [])
            && (st'.tls.cipherSuites == [] || (o.suitesSupported && st'.tls.cipherSuites == o.trimmed))
  {
    if j.Certificate? {
      SuitesSupported(NO_TLS.(certificates := [j.name]), o);
    }
  }

  /** A validated listener is free of Ready errors exactly when it is in order and in no conflict. */
  lemma {:induction false} ReadyIffInOrder(v: Env, g: GatewaySpec, l: Listener, o: TlsOptions, st: ListenerState)
    requires ValidateListener(v, g, l, o, st).Some? && Unchecked(st)
    ensures var st' := ValidateListener(v, g, l, o, st).value;
            && (!st'.status.ReadyHasError() <==>
                  !st.status.hostnameConflict && !st.status.protocolConflict && InOrder(v, g, l, o))
            && (!st'.status.ReadyHasError() ==>
                  st'.status.Valid() &&
                  st'.tls.certificates ==
                    if l.tls.None? then [] else [CertificateName(v, g, l.tls.value.certificateRefs[0])])
            && (st'.tls.cipherSuites == [] || (o.suitesSupported && st'.tls.cipherSuites == o.trimmed))
            && st'.routes == st.routes && st'.protocol == st.protocol && st'.name == st.name
            && st'.status.hostnameConflict == st.status.hostnameConflict &&
               st'.status.protocolConflict == st.status.protocolConflict
  {
    JudgedIff(v, g, l, o);
    var j, checked := JudgeTLS(v, g, l), st.(status := Checked(g, l, st.status));
    RecordedStatus(j, o, checked);
    RecordedConflicts(j, o, checked);
    RecordedRest(j, o, checked);
  }

  // ----- Conflicts between listeners ---------------------------------------------------------------------------------

  datatype MergedListener = MergedListener(listeners: seq<nat>, protocols: set<Protocol>, hostnames: set<string>)

  /** Another listener on the same port speaks another protocol. */
  ghost predicate ProtocolsClash(ls: seq<Listener>, i: nat)
    requires i < |ls|
  {
    exists j | 0 <= j < |ls| :: ls[j].port == ls[i].port && ls[j].protocol != ls[i].protocol
  }

  /** Two listeners on the port name different hosts; listener i need not be one of them. */
  ghost predicate HostnamesClash(ls: seq<Listener>, i: nat)
    requires i < |ls|
  {
    exists j, k | 0 <= j < |ls| && 0 <= k < |ls| ::
      && ls[j].port == ls[i].port && ls[k].port == ls[i].port
      && ls[j].hostname.Some? && ls[k].hostname.Some? && ls[j].hostname != ls[k].hostname
  }

  function ProtocolsOn(ls: seq<Listener>, p: int): set<Protocol> {
    set i | 0 <= i < |ls| && ls[i].port == p :: ls[i].protocol
  }

  function HostnamesOn(ls: seq<Listener>, p: int): set<string> {
    set i | 0 <= i < |ls| && ls[i].port == p && ls[i].hostname.Some? :: ls[i].hostname.value
  }

  ghost predicate MergedOn(m: MergedListener, ls: seq<Listener>, p: int) {
    && (forall i :: i in m.listeners <==> 0 <= i < |ls| && ls[i].port == p)
    && m.protocols == ProtocolsOn(ls, p)
    && m.hostnames == HostnamesOn(ls, p)
  }

  ghost predicate MergesPorts(m: map<int, MergedListener>, ls: seq<Listener>) {
    && (forall i | 0 <= i < |ls| :: ls[i].port in m)
    && (forall p | p in m :: MergedOn(m[p], ls, p))
  }

  function Extended(m: map<int, MergedListener>, i: nat, l: Listener): map<int, MergedListener> {
    var merged := if l.port in m then m[l.port] else MergedListener([], {}, {});
    m[l.port := MergedListener(merged.listeners + [i], merged.protocols + {l.protocol},
                               if l.hostname.Some? then merged.hostnames + {l.hostname.value} else merged.hostnames)]
  }

  lemma {:induction false} OnOneMore(ls: seq<Listener>, n: nat, p: int)
    requires n < |ls|
    ensures ProtocolsOn(ls[..n + 1], p) ==
            ProtocolsOn(ls[..n], p) + if ls[n].port == p then {ls[n].protocol} else {}
    ensures HostnamesOn(ls[..n + 1], p) ==
            HostnamesOn(ls[..n], p) + if ls[n].port == p && ls[n].hostname.Some? then {ls[n].hostname.value} else {}
  {
    var longer, shorter := ls[..n + 1], ls[..n];
    assert longer == shorter + [ls[n]];
    assert forall i | 0 <= i < n :: longer[i] == shorter[i];
  }

  lemma {:induction false} MergedOneMore(m: map<int, MergedListener>, ls: seq<Listener>, n: nat, p: int)
    requires n < |ls| && MergesPorts(m, ls[..n]) && p in Extended(m, n, ls[n])
    ensures MergedOn(Extended(m, n, ls[n])[p], ls[..n + 1], p)
  {
    OnOneMore(ls, n, p);
    if p !in m {
      assert forall i | 0 <= i < n :: ls[..n][i].port != p;
    }
  }

  method MergeListenersByPort(ls: seq<Listener>) returns (m: map<int, MergedListener>)
    ensures MergesPorts(m, ls)
  {
    m := map[];
    for n := 0 to |ls|
      invariant MergesPorts(m, ls[..n])
    {
      forall p | p in Extended(m, n, ls[n])
        ensures MergedOn(Extended(m, n, ls[n])[p], ls[..n + 1], p)
      {
        MergedOneMore(m, ls, n, p);
      }
      m := Extended(m, n, ls[n]);
    }
    assert ls[..|ls|] == ls;
  }

  lemma {:induction false} MoreThanOne<T>(s: set<T>)
    ensures |s| > 1 <==> exists a, b :: a in s && b in s && a != b
  {
    if |s| > 1 {
      var a :| a in s;
      assert |s - {a}| == |s| - 1;
      var b :| b in s - {a};
    }
    if a, b :| a in s && b in s && a != b {
      assert |s - {a}| == |s| - 1 && b in s - {a};
    }
  }

  /** Counting the protocols and the hostnames of a port decides the conflicts of its listeners. */
  lemma {:induction false} CountsDecideConflicts(ls: seq<Listener>, i: nat)
    requires i < |ls|
    ensures |ProtocolsOn(ls, ls[i].port)| > 1 <==> ProtocolsClash(ls, i)
    ensures |HostnamesOn(ls, ls[i].port)| > 1 <==> HostnamesClash(ls, i)
  {
    var p := ls[i].port;
    MoreThanOne(ProtocolsOn(ls, p));
    MoreThanOne(HostnamesOn(ls, p));
    if ProtocolsClash(ls, i) {
      var j :| 0 <= j < |ls| && ls[j].port == p && ls[j].protocol != ls[i].protocol;
      assert ls[j].protocol in ProtocolsOn(ls, p) && ls[i].protocol in ProtocolsOn(ls, p);
    }
    if HostnamesClash(ls, i) {
      var j, k :| 0 <= j < |ls| && 0 <= k < |ls| && ls[j].port == p && ls[k].port == p &&
                  ls[j].hostname.Some? && ls[k].hostname.Some? && ls[j].hostname != ls[k].hostname;
      assert ls[j].hostname.value in HostnamesOn(ls, p) && ls[k].hostname.value in HostnamesOn(ls, p);
    }
    if a, b :| a in HostnamesOn(ls, p) && b in HostnamesOn(ls, p) && a != b {
      var j :| 0 <= j < |ls| && ls[j].port == p && ls[j].hostname == Some(a);
      var k :| 0 <= k < |ls| && ls[k].port == p && ls[k].hostname == Some(b);
      assert ls[j].hostname != ls[k].hostname;
    }
  }

  function WithConflicts(st: ListenerState, protocol: bool, hostname: bool): ListenerState {
    st.(status := st.status.(protocolConflict := st.status.protocolConflict || protocol,
                             hostnameConflict := st.status.hostnameConflict || hostname))
  }

  /** The inner loop for protocols. */
  method MarkProtocols(g: K8sGateway, listeners: seq<nat>)
    requires g.Valid() && forall i | i in listeners :: i < |g.states|
    modifies g
    ensures g.Valid()
    ensures forall i | 0 <= i < |g.states| ::
              g.states[i] == if i in listeners then WithConflicts(old(g.states)[i], true, false) else old(g.states)[i]
  {
    for k := 0 to |listeners|
      invariant g.Valid()
      invariant forall i | 0 <= i < |g.states| ::
                  g.states[i] ==
                    if i in listeners[..k] then WithConflicts(old(g.states)[i], true, false) else old(g.states)[i]
    {
      var index := listeners[k];
      assert index in listeners;
      assert listeners[..k + 1] == listeners[..k] + [index];
      g.states := g.states[index := WithConflicts(g.states[index], true, false)];
    }
    assert listeners[..|listeners|] == listeners;
  }

  /** The inner loop for hostnames. */
  method MarkHostnames(g: K8sGateway, listeners: seq<nat>)
    requires g.Valid() && forall i | i in listeners :: i < |g.states|
    modifies g
    ensures g.Valid()
    ensures forall i | 0 <= i < |g.states| ::
              g.states[i] == if i in listeners then WithConflicts(old(g.states)[i], false, true) else old(g.states)[i]
  {
    for k := 0 to |listeners|
      invariant g.Valid()
      invariant forall i | 0 <= i < |g.states| ::
                  g.states[i] ==
                    if i in listeners[..k] then WithConflicts(old(g.states)[i], false, true) else old(g.states)[i]
    {
      var index := listeners[k];
      assert index in listeners;
      assert listeners[..k + 1] == listeners[..k] + [index];
      g.states := g.states[index := WithConflicts(g.states[index], false, true)];
    }
    assert listeners[..|listeners|] == listeners;
  }

  /** Every listener of a port is marked alike. */
  method MarkPort(g: K8sGateway, merged: MergedListener)
    requires g.Valid() && forall i | i in merged.listeners :: i < |g.states|
    modifies g
    ensures g.Valid()
    ensures forall i | 0 <= i < |g.states| ::
              g.states[i] ==
                WithConflicts(old(g.states)[i], i in merged.listeners && |merged.protocols| > 1,
                              i in merged.listeners && |merged.hostnames| > 1)
  {
    if |merged.protocols| > 1 {
      MarkProtocols(g, merged.listeners);
    }
    if |merged.hostnames| > 1 {
      MarkHostnames(g, merged.listeners);
    }
  }

  ghost function Marked(ls: seq<Listener>, i: nat, st: ListenerState): ListenerState
    requires i < |ls|
  {
    WithConflicts(st, ProtocolsClash(ls, i), HostnamesClash(ls, i))
  }

  lemma {:induction false} SomePort(ports: set<int>)
    ensures ports == {} || exists p :: p in ports
  {
    if forall p :: p !in ports {
      assert ports == {};
    }
  }

  /** Marks exactly the listeners that are in conflict, whatever the order in which ports are visited. */
  method ValidateListenerConflicts(g: K8sGateway)
    requires g.Valid()
    modifies g
    ensures g.Valid()
    ensures forall i | 0 <= i < |g.states| :: g.states[i] == Marked(g.spec.listeners, i, old(g.states)[i])
  {
    var ls := g.spec.listeners;
    var m := MergeListenersByPort(ls);
    var rest := m.Keys;
    while rest != {}
      invariant g.Valid() && rest <= m.Keys
      invariant forall i | 0 <= i < |g.states| ::
                  g.states[i] == if ls[i].port in rest then old(g.states)[i] else Marked(ls, i, old(g.states)[i])
      decreases rest
    {
      SomePort(rest);
      var p :| p in rest;
      assert MergedOn(m[p], ls, p);
      MarkPort(g, m[p]);
      forall i | 0 <= i < |g.states| && ls[i].port == p
        ensures g.states[i] == Marked(ls, i, old(g.states)[i])
      {
        CountsDecideConflicts(ls, i);
      }
      rest := rest - {p};
    }
  }

  // ----- The whole gateway -------------------------------------------------------------------------------------------

  /** The kinds of the list that are not among the supported ones, in order. */
  method KindsNotInSet(kinds: seq<RouteGroupKind>, parent: seq<RouteGroupKind>) returns (others: seq<RouteGroupKind>)
    ensures others == [] <==> forall i | 0 <= i < |kinds| :: kinds[i] in parent
    ensures forall k :: k in others <==> k in kinds && k !in parent
  {
    others := [];
    for i := 0 to |kinds|
      invariant forall k :: k in others <==> k in kinds[..i] && k !in parent
    {
      var found := false;
      for j := 0 to |parent|
        invariant !found && kinds[i] !in parent[..j]
      {
        if parent[j] == kinds[i] {
          found := true;
          break;
        }
      }
      if !found {
        others := others + [kinds[i]];
      }
    }
    assert kinds[..|kinds|] == kinds;
    if others != [] {
      assert others[0] in kinds;
    }
    assert forall i | 0 <= i < |kinds| && kinds[i] !in parent :: kinds[i] in others;
  }

  method ValidateUnsupported(g: GatewaySpec, st: ListenerStatus) returns (st': ListenerStatus)
    ensures st' == st.(unsupportedAddress := st.unsupportedAddress || g.addresses != [])
  {
    st' := st;
    if |g.addresses| > 0 {
      st' := st.(unsupportedAddress := true);
    }
  }

  method ValidateProtocols(l: Listener, st: ListenerStatus) returns (st': ListenerStatus)
    ensures st' == st.(unsupportedProtocol := st.unsupportedProtocol || SupportedKinds(l.protocol) == [],
                       invalidRouteKinds := st.invalidRouteKinds || !KindsSupported(l))
  {
    st' := st;
    var supported := SupportedKinds(l.protocol);
    if |supported| == 0 {
      st' := st'.(unsupportedProtocol := true);
    }
    var unsupported := HasUnsupportedKinds(l, supported);
    if unsupported {
      st' := st'.(invalidRouteKinds := true);
    }
  }

  method HasUnsupportedKinds(l: Listener, supported: seq<RouteGroupKind>) returns (r: bool)
    ensures r <==> l.allowedRoutes.Some? && exists k | k in l.allowedRoutes.value.kinds :: k !in supported
  {
    if l.allowedRoutes.None? {
      return false;
    }
    var others := KindsNotInSet(l.allowedRoutes.value.kinds, supported);
    return |others| != 0;
  }

  method ValidateTLS(v: Env, g: GatewaySpec, l: Listener) returns (j: TlsVerdict)
    ensures j == JudgeTLS(v, g, l)
  {
    if l.tls.None? {
      return if ProtocolToConsul(l.protocol).1 then Unusable else NoTls;
    }
    if l.tls.value.passthrough {
      return Unusable;
    }
    if |l.tls.value.certificateRefs| == 0 {
      return BadCertificate;
    }
    var ref := l.tls.value.certificateRefs[0];
    var from := GrantFrom(v.gatewayGroup, v.gatewayKind, g.namespace);
    var allowed := ReferenceAllowed(v, from, Or(ref.group, ""), Or(ref.kind, "Secret"), Or(ref.namespace, ""),
                                    ref.name);
    if allowed.None? {
      return ClusterError;
    }
    if !allowed.value {
      return NotPermitted;
    }
    if !IsSecretRef(ref) {
      return BadCertificate;
    }
    match v.secret(Or(ref.namespace, g.namespace), ref.name)
    case LookupFailed => return ClusterError;
    case Absent => return BadCertificate;
    case Present => return Certificate(CertificateName(v, g, ref));
  }

  function OptionsOf(l: Listener): TlsOptions {
    ReadOptions(if l.tls.Some? then l.tls.value.options else map[])
  }

  function ValidatedState(v: Env, g: GatewaySpec, i: nat, st: ListenerState): Option<ListenerState>
    requires i < |g.listeners|
  {
    ValidateListener(v, g, g.listeners[i], OptionsOf(g.listeners[i]), st)
  }

  method ValidateListeners(v: Env, g: K8sGateway) returns (err: bool)
    requires g.Valid()
    modifies g
    ensures g.Valid()
    ensures err <==> exists i | 0 <= i < |g.states| :: JudgeTLS(v, g.spec, g.spec.listeners[i]).ClusterError?
    ensures !err ==> forall i | 0 <= i < |g.states| ::
              ValidatedState(v, g.spec, i, old(g.states)[i]) == Some(g.states[i])
  {
    for i := 0 to |g.states|
      invariant g.Valid()
      invariant forall k | 0 <= k < i :: !JudgeTLS(v, g.spec, g.spec.listeners[k]).ClusterError?
      invariant forall k | 0 <= k < i :: ValidatedState(v, g.spec, k, old(g.states)[k]) == Some(g.states[k])
      invariant forall k | i <= k < |g.states| :: g.states[k] == old(g.states)[k]
    {
      var st := ValidateOne(v, g.spec, i, g.states[i]);
      if st.None? {
        return true;
      }
      g.states := g.states[i := st.value];
    }
    err := false;
  }

  /** The body of the loop over the listeners. */
  method ValidateOne(v: Env, g: GatewaySpec, i: nat, before: ListenerState) returns (after: Option<ListenerState>)
    requires i < |g.listeners|
    ensures after == ValidatedState(v, g, i, before)
  {
    var l := g.listeners[i];
    var status := ValidateUnsupported(g, before.status);
    status := ValidateProtocols(l, status);
    var j := ValidateTLS(v, g, l);
    if j.ClusterError? {
      return None;
    }
    after := Some(Settle(Record(j, OptionsOf(l), before.(status := status))));
  }

  function Initial(g: GatewaySpec): (r: Gateway)
    ensures r.WellFormed() && r.spec == g && Fresh(r)
  {
    Gateway(g, seq(|g.listeners|, i requires 0 <= i < |g.listeners| => InitialListenerState(g.listeners[i])))
  }

  /** st is the state validation gives listener i, apart from the routes bound to it since. */
  ghost predicate ValidatedAt(v: Env, g: GatewaySpec, i: nat, st: ListenerState)
    requires i < |g.listeners|
  {
    ValidatedState(v, g, i, Marked(g.listeners, i, InitialListenerState(g.listeners[i]))) == Some(st.(routes := map[]))
  }

  ghost predicate Validated(v: Env, g: Gateway) {
    g.WellFormed() && forall i | 0 <= i < |g.states| :: ValidatedAt(v, g.spec, i, g.states[i])
  }

  method Validate(v: Env, spec: GatewaySpec) returns (r: Option<Gateway>)
    ensures r.None? <==> exists i | 0 <= i < |spec.listeners| :: JudgeTLS(v, spec, spec.listeners[i]).ClusterError?
    ensures r.Some? ==> r.value.spec == spec && Validated(v, r.value) && Fresh(r.value)
  {
    var g := new K8sGateway(Initial(spec));
    ValidateListenerConflicts(g);
    ghost var marked := g.states;
    var err := ValidateListeners(v, g);
    if err {
      return None;
    }
    forall i | 0 <= i < |g.states|
      ensures ValidatedAt(v, spec, i, g.states[i]) && g.states[i].routes == map[]
    {
      ValidatedFacts(v, spec, i, g.states[i]);
    }
    r := Some(g.Value());
  }

  // ----- What validation promises ------------------------------------------------------------------------------------

  /** A listener is ready exactly when it is in order and in no conflict with another listener of its port. */
  lemma {:induction false} ValidatedFacts(v: Env, g: GatewaySpec, i: nat, st: ListenerState)
    requires i < |g.listeners|
    requires ValidatedState(v, g, i, Marked(g.listeners, i, InitialListenerState(g.listeners[i]))) == Some(st)
    ensures st.routes == map[]
    ensures ReadyFacts(v, g, i, st)
  {
    ReadyIffInOrder(v, g, g.listeners[i], OptionsOf(g.listeners[i]),
                    Marked(g.listeners, i, InitialListenerState(g.listeners[i])));
  }

  ghost predicate ReadyFacts(v: Env, g: GatewaySpec, i: nat, st: ListenerState)
    requires i < |g.listeners|
  {
    var l := g.listeners[i];
    && st.protocol == l.protocol && st.name == l.name
    && (st.status.protocolConflict <==> ProtocolsClash(g.listeners, i))
    && (st.status.hostnameConflict <==> HostnamesClash(g.listeners, i))
    && (!st.status.ReadyHasError() <==>
          !ProtocolsClash(g.listeners, i) && !HostnamesClash(g.listeners, i) && InOrder(v, g, l, OptionsOf(l)))
    && (!st.status.ReadyHasError() ==> st.status.Valid())
    && (!st.status.ReadyHasError() ==>
          st.tls.certificates == if l.tls.None? then [] else [CertificateName(v, g, l.tls.value.certificateRefs[0])])
    && AllSupported(st.tls.cipherSuites)
  }

  lemma {:induction false} ReadyListeners(v: Env, g: Gateway, i: nat)
    requires Validated(v, g) && i < |g.states|
    ensures ReadyFacts(v, g.spec, i, g.states[i])
  {
    assert ValidatedAt(v, g.spec, i, g.states[i]);
    ValidatedFacts(v, g.spec, i, g.states[i].(routes := map[]));
  }

  /** Valid listeners that share a port share its protocol and, where they name a host, the host. */
  lemma {:induction false} ValidListenersShareTheirPort(v: Env, g: Gateway, i: nat, j: nat)
    requires Validated(v, g) && i < |g.states| && j < |g.states|
    requires g.states[i].Valid() && g.spec.listeners[i].port == g.spec.listeners[j].port
    ensures g.spec.listeners[i].protocol == g.spec.listeners[j].protocol
    ensures g.spec.listeners[i].hostname.Some? && g.spec.listeners[j].hostname.Some? ==>
              g.spec.listeners[i].hostname == g.spec.listeners[j].hostname
  {
    ReadyListeners(v, g, i);
  }
}
