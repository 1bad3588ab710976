// The record of binding failures per parent of a route, from which its status is reported
// (internal/k8s/reconciler/status/route.go; conditions as in zz_generated_status.go).

module StatusTracking {
  import opened Wrappers
  import opened RouteStatus

  datatype AcceptedErrors = AcceptedErrors(invalidRouteKind: Option<string>, listenerNamespacePolicy: Option<string>,
                                           listenerHostnameMismatch: Option<string>, bindError: Option<string>)

  datatype ResolvedErrors = ResolvedErrors(errors: Option<string>, serviceNotFound: Option<string>,
                                           consulServiceNotFound: Option<string>,
                                           refNotPermitted: Option<string>, invalidKind: Option<string>,
                                           backendNotFound: Option<string>)

  datatype Errors = Errors(accepted: AcceptedErrors, resolved: ResolvedErrors)

  const NO_ERRORS := Errors(AcceptedErrors(None, None, None, None), ResolvedErrors(None, None, None, None, None, None))

  /** A binding error of a known kind, or any other error. */
  datatype BindFailure = HostnameMismatch | NamespacePolicy | RouteKind | RouteInvalid | OtherFailure

  datatype ResolutionFailure =
    | NoFailure | Generic | ConsulService | K8sService | RefNotPermitted | InvalidKind | BackendNotFound

  // ----- What is reported -----------------------------------------------------------------------------------

  function Failed(reason: string, message: string): Outcome { Outcome("False", reason, message) }

  /** The first error that is set, in order of precedence. */
  function AcceptedOutcome(e: AcceptedErrors): Outcome {
    if e.invalidRouteKind.Some? then Failed("InvalidRouteKind", e.invalidRouteKind.value)
    else if e.listenerNamespacePolicy.Some? then Failed("ListenerNamespacePolicy", e.listenerNamespacePolicy.value)
    else if e.listenerHostnameMismatch.Some? then Failed("ListenerHostnameMismatch", e.listenerHostnameMismatch.value)
    else if e.bindError.Some? then Failed("BindError", e.bindError.value)
    else Outcome("True", "Accepted", "Route accepted.")
  }

  function ResolvedOutcome(e: ResolvedErrors): Outcome {
    if e.errors.Some? then Failed("Errors", e.errors.value)
    else if e.serviceNotFound.Some? then Failed("ServiceNotFound", e.serviceNotFound.value)
    else if e.consulServiceNotFound.Some? then Failed("ConsulServiceNotFound", e.consulServiceNotFound.value)
    else if e.refNotPermitted.Some? then Failed("RefNotPermitted", e.refNotPermitted.value)
    else if e.invalidKind.Some? then Failed("InvalidKind", e.invalidKind.value)
    else if e.backendNotFound.Some? then Failed("BackendNotFound", e.backendNotFound.value)
    else Outcome("True", "ResolvedRefs", "ResolvedRefs")
  }

  function FindingOf(e: Errors): Finding { Finding(AcceptedOutcome(e.accepted), ResolvedOutcome(e.resolved)) }

  // ----- What is recorded ------------------------------------------------------------------------------------

  function WithBindFailure(e: AcceptedErrors, f: BindFailure, message: string): AcceptedErrors {
    match f
    case HostnameMismatch => e.(listenerHostnameMismatch := Some(message))
    case NamespacePolicy => e.(listenerNamespacePolicy := Some(message))
    case RouteKind => e.(invalidRouteKind := Some(message))
    case RouteInvalid => e.(bindError := Some(message))
    case OtherFailure => e.(bindError := Some(message))
  }

  function WithResolutionFailure(e: ResolvedErrors, f: ResolutionFailure, message: string): ResolvedErrors {
    match f
    case NoFailure => e
    case Generic => e.(errors := Some(message))
    case ConsulService => e.(consulServiceNotFound := Some(message))
    case K8sService => e.(serviceNotFound := Some(message))
    case RefNotPermitted => e.(refNotPermitted := Some(message))
    case InvalidKind => e.(invalidKind := Some(message))
    case BackendNotFound => e.(backendNotFound := Some(message))
  }

  predicate Rejected(e: Errors) { FindingOf(e).accepted.status == "False" }

  predicate Unresolved(e: Errors) { FindingOf(e).resolvedRefs.status == "False" }

  datatype Event =
    | BindFailed(failure: BindFailure, message: string, resolution: ResolutionFailure, resolutionMessage: string,
                 id: string)
    | Bound(id: string)
    | Remove(id: string)

  function After(m: map<string, Errors>, ev: Event): map<string, Errors> {
    match ev
    case BindFailed(f, msg, rf, rmsg, id) =>
      var e := if id in m then m[id] else NO_ERRORS;
      m[id := Errors(WithBindFailure(e.accepted, f, msg), WithResolutionFailure(e.resolved, rf, rmsg))]
    case Bound(id) => m[id := NO_ERRORS]
    case Remove(id) => m - {id}
  }

  function AfterAll(m: map<string, Errors>, evs: seq<Event>): map<string, Errors> {
    if evs == [] then m else After(AfterAll(m, evs[..|evs| - 1]), evs[|evs| - 1])
  }

  /** Some failure to bind is recorded for id after which nothing but failures was. */
  ghost predicate FailedSince(evs: seq<Event>, id: string) {
    exists k | 0 <= k < |evs| :: IsFailure(evs, k, id)
  }

  ghost predicate IsFailure(evs: seq<Event>, k: nat, id: string)
    requires k < |evs|
  {
    evs[k].BindFailed? && evs[k].id == id && forall j | k < j < |evs| && evs[j].id == id :: evs[j].BindFailed?
  }

  /** The last word on id, if any, was not that it is to be removed. */
  ghost predicate Tracked(evs: seq<Event>, id: string) {
    exists k | 0 <= k < |evs| :: IsLast(evs, k, id) && !evs[k].Remove?
  }

  ghost predicate IsLast(evs: seq<Event>, k: nat, id: string)
    requires k < |evs|
  {
    evs[k].id == id && forall j | k < j < |evs| :: evs[j].id != id
  }

  lemma {:induction false} FailureRejects(e: AcceptedErrors, f: BindFailure, message: string)
    ensures AcceptedOutcome(WithBindFailure(e, f, message)).status == "False"
  {}

  lemma {:induction false} LastTracked(init: seq<Event>, last: Event, id: string)
    ensures Tracked(init + [last], id) <==> if last.id == id then !last.Remove? else Tracked(init, id)
  {
    var n, evs := |init|, init + [last];
    assert evs[n] == last && forall j | 0 <= j < n :: evs[j] == init[j];
    if last.id == id {
      assert IsLast(evs, n, id);
    } else {
      assert forall k | 0 <= k < n :: IsLast(evs, k, id) <==> IsLast(init, k, id);
    }
  }

  lemma {:induction false} LastFailed(init: seq<Event>, last: Event, id: string)
    ensures FailedSince(init + [last], id) <==> if last.id == id then last.BindFailed? else FailedSince(init, id)
  {
    var n, evs := |init|, init + [last];
    assert evs[n] == last && forall j | 0 <= j < n :: evs[j] == init[j];
    if last.id == id {
      assert last.BindFailed? ==> IsFailure(evs, n, id);
    } else {
      assert forall k | 0 <= k < n :: IsFailure(evs, k, id) <==> IsFailure(init, k, id);
    }
  }

  /**
   * Over every history: a parent has an entry exactly if the last word on it was not its removal, and
   * the entry says "not accepted" exactly if binding failed since it was last bound or removed.
   */
  lemma {:induction false} RejectedIffFailedSince(evs: seq<Event>, id: string)
    ensures id in AfterAll(map[], evs) <==> Tracked(evs, id)
    ensures id in AfterAll(map[], evs) ==> (Rejected(AfterAll(map[], evs)[id]) <==> FailedSince(evs, id))
    ensures id !in AfterAll(map[], evs) ==> !FailedSince(evs, id)
  {
    if evs != [] {
      var init, last := evs[..|evs| - 1], evs[|evs| - 1];
      RejectedIffFailedSince(init, id);
      assert evs == init + [last];
      LastTracked(init, last, id);
      LastFailed(init, last, id);
      var m := AfterAll(map[], init);
      if last.id == id && last.BindFailed? {
        FailureRejects((if id in m then m[id] else NO_ERRORS).accepted, last.failure, last.message);
      }
    }
  }

  /** A failure to resolve is recorded for id after which nothing but failures to bind was. */
  ghost predicate UnresolvedSince(evs: seq<Event>, id: string) {
    exists k | 0 <= k < |evs| :: IsFailure(evs, k, id) && !evs[k].resolution.NoFailure?
  }

  lemma {:induction false} LastUnresolved(init: seq<Event>, last: Event, id: string)
    ensures UnresolvedSince(init + [last], id) <==>
            if last.id == id then last.BindFailed? && (!last.resolution.NoFailure? || UnresolvedSince(init, id))
            else UnresolvedSince(init, id)
  {
    var n, evs := |init|, init + [last];
    assert evs[n] == last && forall j | 0 <= j < n :: evs[j] == init[j];
    if last.id != id || last.BindFailed? {
      assert forall k | 0 <= k < n :: IsFailure(evs, k, id) <==> IsFailure(init, k, id);
    }
    if last.id == id && last.BindFailed? {
      assert IsFailure(evs, n, id);
    }
  }

  lemma {:induction false} FailureUnresolves(e: ResolvedErrors, f: ResolutionFailure, message: string)
    ensures ResolvedOutcome(WithResolutionFailure(e, f, message)).status == "False" <==>
            !f.NoFailure? || ResolvedOutcome(e).status == "False"
  {}

  /**
   * Over every history: the entry of a parent says that references are not resolved exactly if a failure to
   * resolve was recorded since the parent was last bound or removed, whatever failures to bind came after it.
   */
  lemma {:induction false} UnresolvedIffFailedSince(evs: seq<Event>, id: string)
    ensures id in AfterAll(map[], evs) ==> (Unresolved(AfterAll(map[], evs)[id]) <==> UnresolvedSince(evs, id))
    ensures id !in AfterAll(map[], evs) ==> !UnresolvedSince(evs, id)
  {
    if evs != [] {
      var init, last := evs[..|evs| - 1], evs[|evs| - 1];
      UnresolvedIffFailedSince(init, id);
      assert evs == init + [last];
      LastUnresolved(init, last, id);
      var m := AfterAll(map[], init);
      if last.id == id && last.BindFailed? {
        FailureUnresolves((if id in m then m[id] else NO_ERRORS).resolved, last.resolution, last.resolutionMessage);
      }
    }
  }

  // ----- What is reported, over a history ------------------------------------------------------------------

  /** Both kinds are reported alike, as a general error of binding. */
  predicate SameReport(f: BindFailure, g: BindFailure) {
    f == g || (f in {RouteInvalid, OtherFailure} && g in {RouteInvalid, OtherFailure})
  }

  /** Event k is the last failure of this kind since id was last bound or removed. */
  ghost predicate LastBindFailure(evs: seq<Event>, k: nat, id: string, f: BindFailure) {
    && k < |evs| && IsFailure(evs, k, id) && SameReport(evs[k].failure, f)
    && forall j | k < j < |evs| && evs[j].id == id :: evs[j].BindFailed? && !SameReport(evs[j].failure, f)
  }

  ghost predicate LastResolutionFailure(evs: seq<Event>, k: nat, id: string, f: ResolutionFailure) {
    && k < |evs| && IsFailure(evs, k, id) && evs[k].resolution == f
    && forall j | k < j < |evs| && evs[j].id == id :: evs[j].BindFailed? && evs[j].resolution != f
  }

  ghost predicate BindFailedSince(evs: seq<Event>, id: string, f: BindFailure) {
    exists k: nat :: LastBindFailure(evs, k, id, f)
  }

  ghost predicate ResolutionFailedSince(evs: seq<Event>, id: string, f: ResolutionFailure) {
    exists k: nat :: LastResolutionFailure(evs, k, id, f)
  }

  /** The message that is kept for failures of this kind. */
  function BindMessage(e: AcceptedErrors, f: BindFailure): Option<string> {
    if f == RouteKind then e.invalidRouteKind else if f == NamespacePolicy then e.listenerNamespacePolicy
    else if f == HostnameMismatch then e.listenerHostnameMismatch else e.bindError
  }

  function ResolutionMessage(e: ResolvedErrors, f: ResolutionFailure): Option<string> {
    if f == Generic then e.errors else if f == K8sService then e.serviceNotFound
    else if f == ConsulService then e.consulServiceNotFound else if f == RefNotPermitted then e.refNotPermitted
    else if f == InvalidKind then e.invalidKind else if f == BackendNotFound then e.backendNotFound else None
  }

  lemma {:induction false} LastBindStep(init: seq<Event>, last: Event, k: nat, id: string, f: BindFailure)
    ensures LastBindFailure(init + [last], k, id, f) <==>
            if last.id != id then LastBindFailure(init, k, id, f)
            else if !last.BindFailed? then false
            else if SameReport(last.failure, f) then k == |init| else LastBindFailure(init, k, id, f)
  {
    var n, evs := |init|, init + [last];
    assert evs[n] == last && forall j | 0 <= j < n :: evs[j] == init[j];
    if k < n && (last.id != id || last.BindFailed?) {
      assert IsFailure(evs, k, id) <==> IsFailure(init, k, id);
    }
  }

  lemma {:induction false} LastResolutionStep(init: seq<Event>, last: Event, k: nat, id: string, f: ResolutionFailure)
    ensures LastResolutionFailure(init + [last], k, id, f) <==>
            if last.id != id then LastResolutionFailure(init, k, id, f)
            else if !last.BindFailed? then false
            else if last.resolution == f then k == |init| else LastResolutionFailure(init, k, id, f)
  {
    var n, evs := |init|, init + [last];
    assert evs[n] == last && forall j | 0 <= j < n :: evs[j] == init[j];
    if k < n && (last.id != id || last.BindFailed?) {
      assert IsFailure(evs, k, id) <==> IsFailure(init, k, id);
    }
  }

  lemma {:induction false} RecordedBindFailure(e: AcceptedErrors, g: BindFailure, message: string, f: BindFailure)
    ensures BindMessage(WithBindFailure(e, g, message), f) ==
            if SameReport(g, f) then Some(message) else BindMessage(e, f)
  {}

  lemma {:induction false} RecordedResolution(e: ResolvedErrors, g: ResolutionFailure, message: string,
                                              f: ResolutionFailure)
    requires f != NoFailure
    ensures ResolutionMessage(WithResolutionFailure(e, g, message), f) ==
            if g == f then Some(message) else ResolutionMessage(e, f)
  {}

  /** The message of the last such failure since the parent was last bound or removed is kept, and no other. */
  ghost predicate KeepsBindMessages(evs: seq<Event>, id: string, m: map<string, Errors>, f: BindFailure) {
    && (id !in m ==> !BindFailedSince(evs, id, f))
    && (id in m ==> (BindMessage(m[id].accepted, f).Some? <==> BindFailedSince(evs, id, f)))
    && (id in m ==>
          forall k: nat | LastBindFailure(evs, k, id, f) :: BindMessage(m[id].accepted, f) == Some(evs[k].message))
  }

  ghost predicate KeepsResolutionMessages(evs: seq<Event>, id: string, m: map<string, Errors>, f: ResolutionFailure) {
    && (id !in m ==> !ResolutionFailedSince(evs, id, f))
    && (id in m ==> (ResolutionMessage(m[id].resolved, f).Some? <==> ResolutionFailedSince(evs, id, f)))
    && (id in m ==> forall k: nat | LastResolutionFailure(evs, k, id, f) ::
                      ResolutionMessage(m[id].resolved, f) == Some(evs[k].resolutionMessage))
  }

  lemma {:induction false} BindMessagesKept(evs: seq<Event>, id: string, f: BindFailure)
    ensures KeepsBindMessages(evs, id, AfterAll(map[], evs), f)
  {
    if evs != [] {
      var init, last := evs[..|evs| - 1], evs[|evs| - 1];
      BindMessagesKept(init, id, f);
      assert evs == init + [last];
      forall k: nat
        ensures LastBindFailure(evs, k, id, f) <==>
                if last.id != id then LastBindFailure(init, k, id, f)
                else if !last.BindFailed? then false
                else if SameReport(last.failure, f) then k == |init| else LastBindFailure(init, k, id, f)
      {
        LastBindStep(init, last, k, id, f);
      }
      assert last.id == id && last.BindFailed? && SameReport(last.failure, f) ==> LastBindFailure(evs, |init|, id, f);
      var m := AfterAll(map[], init);
      if last.id == id && last.BindFailed? {
        RecordedBindFailure((if id in m then m[id] else NO_ERRORS).accepted, last.failure, last.message, f);
      }
    }
  }

  lemma {:induction false} ResolutionMessagesKept(evs: seq<Event>, id: string, f: ResolutionFailure)
    requires f != NoFailure
    ensures KeepsResolutionMessages(evs, id, AfterAll(map[], evs), f)
  {
    if evs != [] {
      var init, last := evs[..|evs| - 1], evs[|evs| - 1];
      ResolutionMessagesKept(init, id, f);
      assert evs == init + [last];
      forall k: nat
        ensures LastResolutionFailure(evs, k, id, f) <==>
                if last.id != id then LastResolutionFailure(init, k, id, f)
                else if !last.BindFailed? then false
                else if last.resolution == f then k == |init| else LastResolutionFailure(init, k, id, f)
      {
        LastResolutionStep(init, last, k, id, f);
      }
      assert last.id == id && last.BindFailed? && last.resolution == f ==> LastResolutionFailure(evs, |init|, id, f);
      var m := AfterAll(map[], init);
      if last.id == id && last.BindFailed? {
        RecordedResolution((if id in m then m[id] else NO_ERRORS).resolved, last.resolution, last.resolutionMessage, f);
      }
    }
  }

  /** What the Accepted condition says: the kinds of failure in order of precedence, with the last message. */
  ghost predicate AcceptedSays(found: Outcome, evs: seq<Event>, id: string) {
    if BindFailedSince(evs, id, RouteKind) then BlamesBinding(found, "InvalidRouteKind", evs, id, RouteKind)
    else if BindFailedSince(evs, id, NamespacePolicy) then
      BlamesBinding(found, "ListenerNamespacePolicy", evs, id, NamespacePolicy)
    else if BindFailedSince(evs, id, HostnameMismatch) then
      BlamesBinding(found, "ListenerHostnameMismatch", evs, id, HostnameMismatch)
    else if BindFailedSince(evs, id, OtherFailure) then BlamesBinding(found, "BindError", evs, id, OtherFailure)
    else found == Outcome("True", "Accepted", "Route accepted.")
  }

  ghost predicate BlamesBinding(found: Outcome, reason: string, evs: seq<Event>, id: string, f: BindFailure) {
    && found.status == "False" && found.reason == reason
    && forall k: nat | LastBindFailure(evs, k, id, f) :: found.message == evs[k].message
  }

  ghost predicate ResolvedSays(found: Outcome, evs: seq<Event>, id: string) {
    if ResolutionFailedSince(evs, id, Generic) then BlamesResolution(found, "Errors", evs, id, Generic)
    else if ResolutionFailedSince(evs, id, K8sService) then
      BlamesResolution(found, "ServiceNotFound", evs, id, K8sService)
    else if ResolutionFailedSince(evs, id, ConsulService) then
      BlamesResolution(found, "ConsulServiceNotFound", evs, id, ConsulService)
    else if ResolutionFailedSince(evs, id, RefNotPermitted) then
      BlamesResolution(found, "RefNotPermitted", evs, id, RefNotPermitted)
    else if ResolutionFailedSince(evs, id, InvalidKind) then
      BlamesResolution(found, "InvalidKind", evs, id, InvalidKind)
    else if ResolutionFailedSince(evs, id, BackendNotFound) then
      BlamesResolution(found, "BackendNotFound", evs, id, BackendNotFound)
    else found == Outcome("True", "ResolvedRefs", "ResolvedRefs")
  }

  ghost predicate BlamesResolution(found: Outcome, reason: string, evs: seq<Event>, id: string, f: ResolutionFailure) {
    && found.status == "False" && found.reason == reason
    && forall k: nat | LastResolutionFailure(evs, k, id, f) :: found.message == evs[k].resolutionMessage
  }

  lemma {:induction false} AcceptedAfterHistory(evs: seq<Event>, id: string)
    requires id in AfterAll(map[], evs)
    ensures AcceptedSays(AcceptedOutcome(AfterAll(map[], evs)[id].accepted), evs, id)
  {
    BindMessagesKept(evs, id, RouteKind);
    BindMessagesKept(evs, id, NamespacePolicy);
    BindMessagesKept(evs, id, HostnameMismatch);
    BindMessagesKept(evs, id, OtherFailure);
  }

  lemma {:induction false} ResolvedAfterHistory(evs: seq<Event>, id: string)
    requires id in AfterAll(map[], evs)
    ensures ResolvedSays(ResolvedOutcome(AfterAll(map[], evs)[id].resolved), evs, id)
  {
    ResolutionMessagesKept(evs, id, Generic);
    ResolutionMessagesKept(evs, id, K8sService);
    ResolutionMessagesKept(evs, id, ConsulService);
    ResolutionMessagesKept(evs, id, RefNotPermitted);
    ResolutionMessagesKept(evs, id, InvalidKind);
    ResolutionMessagesKept(evs, id, BackendNotFound);
  }

  /** Over every history, the finding for a tracked parent is decided by the failures since it was last bound. */
  lemma {:induction false} FindingsAfterHistory(evs: seq<Event>, id: string)
    requires id in AfterAll(map[], evs)
    ensures AcceptedSays(FindingOf(AfterAll(map[], evs)[id]).accepted, evs, id)
    ensures ResolvedSays(FindingOf(AfterAll(map[], evs)[id]).resolvedRefs, evs, id)
  {
    AcceptedAfterHistory(evs, id);
    ResolvedAfterHistory(evs, id);
  }

  function ReportAfter(evs: seq<Event>, controller: string, generation: int): Report {
    var m := AfterAll(map[], evs);
    Report(map id | id in m :: FindingOf(m[id]), controller, generation)
  }

  /**
   * In a status that has been brought up to date after any history: this controller's entries are for exactly
   * the tracked parents, the condition "Accepted" of an entry is "False" exactly if binding failed since the
   * parent was last bound or removed, and "ResolvedRefs" exactly if resolving its references did.
   */
  lemma {:induction false} StatusAfterHistory(evs: seq<Event>, controller: string, generation: int, ps: seq<Parent>,
                                              id: string)
    requires SaysAll(ps, ReportAfter(evs, controller, generation))
    ensures Tracked(evs, id) <==> exists i | 0 <= i < |ps| :: ps[i].controller == controller && ps[i].ref == id
    ensures forall i, j | 0 <= i < |ps| && ps[i].controller == controller && ps[i].ref == id &&
                          0 <= j < |ps[i].conditions| ::
              && (ps[i].conditions[j].kind == "Accepted" ==>
                    (ps[i].conditions[j].status == "False" <==> FailedSince(evs, id)))
              && (ps[i].conditions[j].kind == "ResolvedRefs" ==>
                    (ps[i].conditions[j].status == "False" <==> UnresolvedSince(evs, id)))
  {
    var r := ReportAfter(evs, controller, generation);
    RejectedIffFailedSince(evs, id);
    UnresolvedIffFailedSince(evs, id);
    if Tracked(evs, id) {
      assert id in r.findings && IsListed(ps, controller, id);
    }
    forall i, j | 0 <= i < |ps| && ps[i].controller == controller && ps[i].ref == id && 0 <= j < |ps[i].conditions|
      ensures ps[i].conditions[j].kind == "Accepted" ==>
                (ps[i].conditions[j].status == "False" <==> FailedSince(evs, id))
      ensures ps[i].conditions[j].kind == "ResolvedRefs" ==>
                (ps[i].conditions[j].status == "False" <==> UnresolvedSince(evs, id))
    {
      var f := r.findings[id];
      assert Says(ps[i], f, generation);
      var a: nat :| OnlyCondition(ps[i], a, "Accepted", f.accepted, generation);
      var b: nat :| OnlyCondition(ps[i], b, "ResolvedRefs", f.resolvedRefs, generation);
    }
  }

  // ----- The object --------------------------------------------------------------------------------------------

  class RouteStatuses {
    var statuses: map<string, Errors>

    constructor ()
      ensures statuses == map[]
    {
      statuses := map[];
    }

    method RecordFailure(failure: BindFailure, message: string, resolution: ResolutionFailure,
                         resolutionMessage: string, id: string)
      modifies this
      ensures statuses == After(old(statuses), BindFailed(failure, message, resolution, resolutionMessage, id))
    {
      var status := if id in statuses then statuses[id] else NO_ERRORS;
      status := status.(accepted := WithBindFailure(status.accepted, failure, message));
      status := status.(resolved := WithResolutionFailure(status.resolved, resolution, resolutionMessage));
      statuses := statuses[id := status];
    }

    method RecordBound(id: string)
      modifies this
      ensures statuses == After(old(statuses), Bound(id))
    {
      statuses := statuses[id := NO_ERRORS];
    }

    method Forget(id: string)
      modifies this
      ensures statuses == After(old(statuses), Remove(id))
    {
      statuses := statuses - {id};
    }

    function ReportFor(controller: string, generation: int): Report
      reads this
    {
      Report(map id | id in statuses :: FindingOf(statuses[id]), controller, generation)
    }

    /** The status to store, and whether it differs from what is there. */
    method CheckUpdate(o: Order, ps: seq<Parent>, controller: string, generation: int, now: Clock)
      returns (updated: seq<Parent>, needed: bool, ghost order: seq<string>)
      requires JsonLike(o)
      ensures Visits(order, ReportFor(controller, generation).findings)
      ensures updated == Merge(o, ps, ReportFor(controller, generation), now, order)
      ensures needed <==> !UpToDate(o, ps, ReportFor(controller, generation))
      ensures SaysAll(updated, ReportFor(controller, generation))
      ensures needed <==> !SaysAll(ps, ReportFor(controller, generation))
    {
      updated, needed, order := NeedsUpdate(o, ps, ReportFor(controller, generation), now);
    }
  }
}
