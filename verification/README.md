# Verification of the API gateway controller's stateful cores

A Dafny 4.11 model of the parts of consul-api-gateway that keep state or rewrite configuration, with
proofs about every input, every run and every interleaving of failures that the model admits:

* **Store and binder.** Kubernetes gateways and routes are stored, routes are bound to listeners
  incrementally, and only what binding reports as modified is persisted and synced.
* **Validation and readiness.** Listeners are checked for conflicts, supported protocols and usable
  certificates before routes may bind to them.
* **Consul compiler.** The HTTP routes of a listener are consolidated per hostname, sorted by precedence and
  compiled into a service router with splitters.
* **Write protocol.** The entries of a gateway are pushed to Consul one write at a time, in a fixed order,
  while any write may fail, with or without having taken effect.
* **Intentions.** Watchers deliver changes of the compiled discovery chains; grants are added and revoked
  by compare-and-set against a Consul that others write to as well.
* **Secret discovery.** Streams of Envoy nodes drive watch sets, reference sets and a certificate cache.
* **Route status.** What this controller reports is merged with what other controllers report.

`dafny verify dfyconfig.toml` checks the whole project.

## How the model is built

Code that changes state is modelled by classes and by methods with the loops of the original (`Binder`,
`LockingStore`, `Validator`, `HttpChain`, `DiscoveryChain`, `SyncAdapter`, `Intentions`, `Secrets`,
`RouteStatus`, `StatusTracking`, and the small indexes). Each such method is proved against a specification on
values (`StoreSpec`, `HttpCompile`, `ChainSpec`, `SyncSpec`, `IntentionSpec`, `SecretSpec`), and the results
over whole runs are lemmas about those specifications (`StoreSpec`, `Readiness`, `SyncRuns`, `IntentionRuns`,
`SecretProps`, `SecretRuns`, `SecretAccess`). `HttpMeaning` defines independently of the compiler what a set
of routes prescribes for a request, by the Gateway API's rules, and what Consul does with routers and
splitters. What a reader of the configuration sees is stated once more by its fields, without the functions
that compute it, and proved equal: filters, precedence and matches (`HttpFields`), listeners
(`ListenerRules`), and, beside the methods themselves, bindings, emitted entries, chain targets, status
conditions and refreshes. Runs and inputs that show where a promise fails are in `HttpExamples`,
`ChainExamples`, `SyncExamples`, `IntentionExamples` and `SecretExamples`.

Everything outside is a parameter or an arbitrary choice: the answers of Kubernetes, the outcome of each
Consul write (applied, applied but reported as failed, or lost), foreign writes between any two Consul
calls, fetches and cache operations that fail, the clock, and the order in which maps are visited.

Places where the code does less than one may expect are stated exactly:

* A route with several parent references is recorded, on each listener, as the last reference has it, whichever
  gateway that names: attachments are lost and gained (`AttachesAsAskedIff`, `EarlierSectionIsLost`,
  `ForeignSectionIsGained`).
* A rule's only backend receives everything, whatever its weight (`CompiledAsPrescribedIff`,
  `WeightlessBackendReceivesAll`).
* A path prefix is passed to Consul, which compares texts, while the Gateway API compares path elements, and an
  empty value is passed on as no value (`ReadingsDifferIff`, `CompilationPreservesMeaningIff`,
  `SplitElementsAreRouted`, `SlashlessPathIsLost`, `EmptyHeaderIsIgnored`).
* Of several listeners that list a host the last one decides for all, and a rule of it that has several backends
  without weight follows the splitter that an earlier one left (`LastListenerDecidesIff`, `LastRouteInstalledIff`,
  `WeightlessRuleFollowsOldSplitter`).
* A Sync that fails and is then followed by a Sync of different content, or by a Clear, leaves entries behind that
  the adapter does not remember (`SyncIsExactIffNoOrphans`, `ClearIsExactIffNoOrphans`,
  `DeletedRouteLeavesOrphan`, `DeletedGatewayLeavesOrphan`).
* An intention left without sources is deleted unconditionally, with whatever others have added since it was read
  (`AttemptKeepsOthersIff`, `RacedDeleteLosesOthers`).
* Two spellings of the default namespace share one intention in Consul, and grants made before the reconciler
  started are not revoked (`SyncIsExactIff`, `RespelledTargetLosesItsGrant`, `OldGrantsStay`).
* Dropping a service cancels its watcher but keeps the references it delivered (`ServicesKeepAgreementIff`,
  `DroppedServiceKeepsItsGrants`).
* A certificate whose fetch failed stays watched and is not fetched again when it is requested again
  (`SuccessRegistersIff`, `FailedFetchIsNotRetried`).
* Closing a stream unwatches the node for all streams that use it, and a stream that changes its node leaves
  the old one watched (`CloseSparesOthersIff`, `SharedNodeLosesItsWatch`, `RenamingKeepsOwnedIff`,
  `RenamedStreamLeaks`).

## Model

| member | source | states |
|---|---|---|
| `Hostnames.HostnamesMatchDecidesOverlap` | internal/k8s/reconciler/utils.go:26-47 | two hostname patterns match if and only if some concrete hostname is accepted by both, where a pattern accepts everything ("" and "*"), the names with one label before its domain in either case ("*." and a domain), or itself |
| `Hostnames.WildcardAccepts` | internal/k8s/reconciler/utils.go:31-43 | comparing the labels after the first decides whether a name is one label, without a dot, before the domain of a wildcard, letters compared in either case |
| `Hostnames.RouteHostnameCheckIsOverlap` | internal/k8s/reconciler/utils.go:13-24 | a route passes a listener's hostname check if and only if the listener or the route names no host or some hostname of the route overlaps the listener's |
| `Binder.Bind` | internal/k8s/reconciler/binder.go:43-73 | each listener records the resolved route if and only if the route points at the gateway and belongs on the listener, all other records staying: the listener has no Ready error and is the one the last reference names, if it names one; it takes HTTP routes for HTTP and HTTPS and TCP routes for TCP; it admits the route's namespace, its own if it says nothing, "" or "Same", any if "All", those whose labels and name meet the selector if "Selector", otherwise none; some hostname overlaps; and references resolve. Modification is reported exactly when the route was recorded before or some reference could bind |
| `Binder.AttachesIffBelongs` | internal/k8s/reconciler/binder.go:112-235 | the checks of canBind, taken together, hold if and only if the route belongs on the listener by the fields of route, listener, gateway and namespace |
| `Binder.NamespaceFitsIff` | internal/k8s/reconciler/binder.go:162-194 | the namespace check passes if and only if the policy is absent, empty or "Same" and the namespaces are one, or "All", or "Selector" with a well-formed selector all of whose requirements the labels of the namespace, its name among them, meet |
| `Binder.RouteIDUnique` | internal/k8s/reconciler/route.go:185-191 | two routes whose namespaces have no slash are recorded under one key if and only if they are of one kind, namespace and name |
| `Binder.BindGatewayByFields` | internal/k8s/reconciler/converter/http.go:43-66 | what is recorded for a route, field by field: name, namespace, metadata, hostnames with the listener's or "*" for none, and its rules or its service |
| `Binder.Unbind` | internal/k8s/reconciler/binder.go:75-88 | the route is gone from every listener and nothing else changes; reports removal exactly when some listener had it |
| `Binder.TryRef` | internal/k8s/reconciler/binder.go:56-69 | one reference against one listener overrides what earlier references left there |
| `Binder.K8sGateway.Resolve` | internal/k8s/reconciler/gateway.go:51-76 | the resolved gateway has exactly the listeners without a conflict or another complaint, TCP ones only with at most one route, in order, each with its name or "default", its hostname or none, its port, "tcp" or "http", its TLS settings and every bound route once |
| `Binder.ValidIffEmitted` | internal/k8s/reconciler/state/gateway.go:117-125 | a listener is valid if and only if its status holds no complaint and it is not a TCP listener with several routes |
| `Binder.ResolveListener` | internal/k8s/reconciler/gateway.go:78-94 | name and hostname defaults, the protocol's Consul name, the TLS settings, and the bound routes in some order |
| `Binder.K8sGateway.CanFetchSecrets` | internal/k8s/reconciler/gateway.go:96-109 | secrets may be fetched if and only if each is a certificate of some listener |
| `Gateways.ValidBelow` | internal/k8s/reconciler/gateway.go:54-66 | the indices of exactly the valid listeners, in increasing order |
| `Gateways.MapValues` | internal/store/memory_backend.go:39-48 | visiting a map in any order lists each of its values once per key |
| `StoreSpec.UnreportedIsUnchanged` | internal/store/store.go:374-389 | a gateway that binding does not report as modified has not changed |
| `StoreSpec.BindingAllInAnyOrder` | internal/store/store.go:374-389 | binding all stored routes one after the other, in any order, gives what recomputation from scratch gives |
| `StoreSpec.UnbindingAllInAnyOrder` | internal/store/store.go:374-389 | unbinding all stored routes one after the other, in any order, takes exactly their attachments from every listener |
| `StoreSpec.ModifiedSuffice` | internal/store/store.go:327-345 | persisting only the gateways reported as modified gives every stored gateway its rebound form |
| `StoreSpec.ApplyKeepsInv` | internal/store/store.go:74-225 | every store call keeps "each listener holds exactly the recomputed attachments", whatever fails |
| `StoreSpec.IncrementalBindingIsRecomputation` | internal/store/store.go:74-225 | in every reachable state a listener records a route if and only if the route is stored and belongs there, and the record is the resolution of the route as now stored |
| `StoreSpec.RecordedIffBelongs` | internal/store/store.go:74-225 | in every reachable state a listener of a stored gateway records a route if and only if the route is stored and belongs there by its fields, and records it as those fields say |
| `StoreSpec.StoredRoutesAreTheLast` | internal/store/store.go:74-225 | after every run a route is stored if and only if the last call that decided on its key was an accepted upsert, and as that call gave it |
| `StoreSpec.StoredGatewaysAreTheLast` | internal/store/store.go:74-225 | after every run a gateway is stored if and only if the last accepted upsert or successful deletion of it was an upsert, and as that gave it, apart from bound routes |
| `StoreSpec.SyncsWhatChanged` | internal/store/store.go:435-457 | a call leaves what was last synced of a gateway whose sync fails; any other that changes is synced as it is now stored, and nothing else ever is; a deleted gateway is no longer synced exactly if clearing it succeeded |
| `StoreSpec.StoreAndAdapterNeverDiverge` | internal/store/store.go:435-457 | after every failure-free run the gateways last synced and not cleared since are exactly the stored ones |
| `StoreSpec.AttachesAsAskedIff` | internal/k8s/reconciler/binder.go:55-70 | where a route attaches differs from where its references to this gateway ask for in exactly two ways: a listener so named is lost if and only if the last reference names another, and one not so named is gained if and only if the last reference, to another gateway, names it |
| `StoreSpec.SingleReferenceAsAsked` | internal/k8s/reconciler/binder.go:55-70 | a route with one reference attaches exactly where it asks to |
| `StoreSpec.EarlierSectionIsLost` | internal/k8s/reconciler/binder.go:55-70 | a concrete route naming two listeners of a gateway that is kept only on the second |
| `StoreSpec.ForeignSectionIsGained` | internal/k8s/reconciler/binder.go:55-70 | a concrete route whose last reference names a listener of another gateway and that is thereby attached to the listener of that name here |
| `LockingStore.BindOrUnbindRoutes` | internal/store/store.go:374-389 | the routes are bound to (or unbound from) one gateway in turn; reports whether any of them modified it |
| `LockingStore.BindOrUnbindAll` | internal/store/store.go:374-389 | every gateway gets every route; the gateways collected as modified are exactly those reported, each once |
| `LockingStore.BindOrUnbindOne` | internal/store/store.go:361-368 | the modified gateways of a single route, as the records to persist |
| `LockingStore.BindStoredRoutes` | internal/store/store.go:74-101 | a gateway bound to all stored routes holds their recomputed attachments |
| `LockingStore.UnbindStoredRoutes` | internal/store/store.go:105-137 | a gateway that goes loses exactly the attachments of the stored routes on every listener, and only stored routes are collected for writing back |
| `LockingStore.Store.ListGateways` | internal/store/store.go:279-295 | every stored gateway once, as a new object of its own |
| `LockingStore.Store.UpsertGateway` | internal/store/store.go:74-101 | the abstract state makes exactly the UpsertGateway step, with every stored route bound |
| `LockingStore.Store.DeleteGateway` | internal/store/store.go:105-137 | the abstract state makes exactly the DeleteGateway step: nothing changes unless the adapter cleared |
| `LockingStore.Store.UpsertRoute` | internal/store/store.go:169-195 | the abstract state makes exactly the UpsertRoute step on all gateways |
| `LockingStore.Store.DeleteRoute` | internal/store/store.go:199-225 | the abstract state makes exactly the DeleteRoute step; an unknown route changes nothing |
| `LockingStore.Store.UpsertGateways` | internal/store/store.go:334-345 | stored gateways become the given ones, all others stay |
| `LockingStore.Store.UpsertModifiedRoutes` | internal/store/store.go:347-358 | writing back routes that are stored already changes nothing |
| `LockingStore.Store.SyncGateway` | internal/store/store.go:448-457 | the adapter is given the resolution of the gateway as it is now |
| `LockingStore.Store.SyncGateways` | internal/store/store.go:435-446 | exactly the gateways whose deployment succeeds are synced, the others keep what was synced before |
| `LockingStore.MemoryBackend.UpsertGateways` | internal/store/memory_backend.go:58-66 | later records win over earlier ones and over what was stored |
| `LockingStore.MemoryBackend.UpsertRoutes` | internal/store/memory_backend.go:97-105 | later records win over earlier ones and over what was stored |
| `Validator.ReferenceAllowed` | internal/k8s/reconciler/validator/utils.go:24-68 | a reference is allowed if and only if it stays in its namespace or one grant there has both a From and a To that apply, a missing or empty name covering all |
| `Validator.MergeListenersByPort` | internal/k8s/reconciler/validator/gateway.go:106-125 | each port gets exactly its listeners, their protocols and their set hostnames |
| `Validator.CountsDecideConflicts` | internal/k8s/reconciler/validator/gateway.go:127-144 | counting protocols and hostnames of a port decides whether another listener speaks another protocol, and whether two name different hosts |
| `Validator.MarkPort` | internal/k8s/reconciler/validator/gateway.go:129-142 | all listeners of a port are marked alike and no other listener is |
| `Validator.ValidateListenerConflicts` | internal/k8s/reconciler/validator/gateway.go:127-144 | a listener gets a protocol conflict if and only if another on its port has a different protocol, a hostname conflict if and only if two on its port have different hostnames, for any order of the ports |
| `Validator.KindsNotInSet` | internal/k8s/reconciler/validator/gateway.go:495-518 | exactly the kinds that are not supported; none if and only if all are supported |
| `Validator.ValidateUnsupported` | internal/k8s/reconciler/validator/gateway.go:334-341 | requested addresses are reported on every listener and nothing else changes |
| `Validator.ValidateProtocols` | internal/k8s/reconciler/validator/gateway.go:343-354 | unsupported protocol and unsupported route kinds are reported exactly when present |
| `Validator.ValidateTLS` | internal/k8s/reconciler/validator/gateway.go:356-400 | where the chain of TLS checks ends, with an error exactly if the cluster cannot answer |
| `Validator.ValidateListeners` | internal/k8s/reconciler/validator/gateway.go:64-97 | fails exactly if the cluster cannot answer for some listener; otherwise every listener gets its validated state |
| `Validator.Validate` | internal/k8s/reconciler/validator/gateway.go:40-62 | a gateway whose every listener is in its validated state with no route bound, or none exactly if the cluster cannot answer |
| `Validator.JudgedIff` | internal/k8s/reconciler/validator/gateway.go:356-400 | the TLS block passes if and only if it is absent and not required, or terminates TLS with a certificate that exists, is a secret, may be referred to, and comes with acceptable options |
| `Validator.ReadyIffInOrder` | internal/k8s/reconciler/validator/gateway.go:64-97 | a validated listener has no Ready error if and only if it is in order and in no conflict; it then carries exactly the certificate it names, and only supported cipher suites |
| `Validator.ReadyListeners` | internal/k8s/reconciler/validator/gateway.go:64-97 | the same for every listener of a gateway that has been validated, whatever routes were bound since |
| `ListenerRules.ReadyIffFits` | internal/k8s/reconciler/validator/gateway.go:64-97 | a validated listener has no Ready error if and only if, by the fields, no addresses are asked for, its protocol is HTTP, HTTPS or TCP and takes every kind of route it names, its TLS block terminates with a usable certificate and known options, or is absent where none is required, and it is in no conflict; it then carries that certificate, those versions and exactly the listed cipher suites |
| `ListenerRules.ReportsByFields` | internal/k8s/reconciler/validator/gateway.go:64-97 | every complaint in the status of a validated listener is there if and only if the field it is about gives cause: addresses, protocol, route kinds, a reference that is not permitted, a permitted one that leads to no secret |
| `ListenerRules.UnansweredIff` | internal/k8s/reconciler/validator/gateway.go:356-400 | validation gives up on a gateway if and only if for a listener that terminates TLS the grants cannot be listed, or the secret cannot be looked up that a permitted reference names |
| `ListenerRules.CertificateFitsIff` | internal/k8s/reconciler/validator/gateway.go:371-400 | a certificate may be used if and only if the reference is to a secret that exists, in the gateway's namespace or in one where a grant names the gateway's kind and namespace and the secret, or any |
| `ListenerRules.AcceptableIffFits` | internal/k8s/reconciler/validator/gateway.go:402-450 | the options pass if and only if the versions are known where given, the comma-separated suites, blanks around them aside, are all known where given, and none are given with TLS 1.3 as the least version |
| `ListenerRules.SuitesListedIff` | internal/k8s/reconciler/validator/gateway.go:433-438 | splitting at commas and trimming gives the one list of names of which the text is the joining, with blanks around them |
| `Validator.ValidListenersShareTheirPort` | internal/k8s/reconciler/state/gateway.go:117-125 | valid listeners on one port share its protocol and, where they name a host, the host |
| `Readiness.ApplyKeepsSound` | internal/store/store.go:74-225 | every store call keeps "routes are bound only to listeners without a Ready error" for stored and for synced gateways |
| `Readiness.OnlyReadyListenersReachConsul` | internal/k8s/reconciler/binder.go:112-115 | in every run each ingress listener computed from what was last synced stems from a listener in order and in no conflict; a TLS listener carries exactly its first certificate, which the gateway may refer to and may fetch |
| `Readiness.OneProtocolPerPort` | internal/k8s/reconciler/validator/gateway.go:127-144 | in every run ingress listeners that share a port share its protocol |
| `HttpMeaning.ChosenIsUnique` | internal/adapters/consul/http.go:244-265 | at most one rule is chosen by the precedence of path length, headers, query parameters and order |
| `HttpCompile.ReadingsDifferIff` | internal/adapters/consul/http.go:148-231 | the translated match loses exactly the requests for a prefix less its trailing slash, and lets in exactly those whose path continues the last element of a prefix and those that fail a comparison with an empty text |
| `HttpCompile.TranslationPreservesMatching` | internal/adapters/consul/http.go:148-231 | the translated match and the match of the Gateway API, whose prefixes are compared element by element, agree on a request if and only if it is none of these |
| `HttpCompile.ModifiersOfBoth` | internal/adapters/consul/http.go:122-146 | merging the modifiers of rule and service is applying both filter lists one after the other |
| `HttpCompile.SplitsExistIffSomeWeight` | internal/adapters/consul/http.go:53-77 | there is a split if and only if some service has positive weight |
| `HttpCompile.SplitsKeepOrderAndProportion` | internal/adapters/consul/http.go:53-77 | splits are the services with weight, in order and in proportion to their weights |
| `HttpCompile.SplitsShareEverything` | internal/adapters/consul/http.go:53-77 | the splits add up to exactly 100 percent |
| `HttpCompile.TotalFitsInt32` | internal/adapters/consul/http.go:53-56 | within the weight limits the 32-bit total does not wrap around |
| `HttpCompile.LimitOnServicesIsTight` | internal/adapters/consul/http.go:53-56 | one service more, all of the largest weight, and the 32-bit total turns negative |
| `Precedence.SliceStable` | internal/adapters/consul/http.go:346-349 | the candidates in order of precedence, those of equal precedence in their old order, none lost or added |
| `Precedence.StablySortedUnique` | internal/adapters/consul/http.go:346-349 | there is only one stably sorted form |
| `Precedence.FirstMatchIsChosen` | internal/adapters/consul/http.go:257-265 | the first candidate of the sorted list that matches a request is the one the precedence rules choose |
| `Precedence.CollectedMeansCandidates` | internal/adapters/consul/http.go:297-327 | listing a host several times, which repeats a route's rules, does not change which rule is chosen |
| `Precedence.FirstMatchIsReferenceChoice` | internal/adapters/consul/http.go:331-364 | first match over the consolidated rules is the choice the routes prescribe |
| `HttpCorrect.SameChoiceIff` | internal/adapters/consul/http.go:244-265 | two readings of matches choose the same rule if and only if the best rule that matches in either matches in both |
| `HttpCorrect.CompiledAsPrescribedIff` | internal/adapters/consul/http.go:24-77 | a rule is compiled to the shares its weights prescribe unless it has a single backend, of weight zero, that has instances |
| `HttpCorrect.RouterAppliesItsChoice` | internal/adapters/consul/http.go:19-106 | for every request the compiled router delivers, through its splitters, what the rule chosen in Consul's reading is compiled to |
| `HttpCorrect.ComeToTheSameIff` | internal/adapters/consul/http.go:24-77 | two rules deliver the same if and only if they rewrite prefixes alike and the same backends with weight and instances follow in the same order, with the same proportions of the whole and the same header changes |
| `HttpCorrect.CompilationPreservesMeaningIff` | internal/adapters/consul/http.go:19-106 | for every request the router compiled for a host delivers, through its splitters, the services, percentages, header changes and prefix rewrite that the routes prescribe, if and only if both readings choose one rule and that has no lone weightless backend with instances, or each chooses a rule and the two come to the same |
| `HttpFields.ModifiersAsAsked` | internal/adapters/consul/http.go:122-139 | folding the filters gives each header the value of the last filter that sets it, and the last that adds it, and all removals in order |
| `HttpFields.PrefixRewriteAsAsked` | internal/adapters/consul/http.go:108-118 | the rewrite is the replacement of the first filter that replaces the matched prefix |
| `HttpFields.OutcomesAsAsked` | internal/adapters/consul/http.go:24-77 | every share that a rule prescribes, and every share that it is compiled to, goes to one of its backends with the header changes that its filters followed by that backend's ask for, and with the rewrite they ask for |
| `HttpFields.RouterDeliversAsAsked` | internal/adapters/consul/http.go:19-106 | for every request that the compiled router routes there is a rule of a route that lists the host, the first that matches by length of path, number of headers and number of query parameters, and whatever reaches a running service is a share of that rule, with the header changes and the rewrite its filters ask for |
| `HttpFields.ChosenComesFirst` | internal/adapters/consul/http.go:244-265 | the rule that decides matches, and no other that matches has a longer path, or as long a one and more headers, or as many and more query parameters, or ties and comes earlier |
| `HttpFields.SortedComesFirst` | internal/adapters/consul/http.go:244-265 | the rules of a consolidated route stand in that order |
| `HttpFields.CandidatesAre` | internal/adapters/consul/http.go:297-327 | the candidates for a host are exactly the matches of the rules of the HTTP routes that list it, with the filters and backends of their rule; a rule without matches has one, for every path |
| `HttpFields.CandidatesInOrder` | internal/adapters/consul/http.go:297-327 | they stand in the order of the rules and, within a rule, of its matches |
| `HttpFields.MethodsAsNamed` | internal/adapters/consul/http.go:209-228 | a match for a method is translated to the name the method has in HTTP, one for none to no restriction |
| `HttpFields.MatchTranslatedByField` | internal/adapters/consul/http.go:148-231 | the translation of a match, field by field: the path in the field of its kind, the headers and query parameters in order without those that have no kind, each with its value in the field of its kind |
| `HttpExamples.PlainRequestsAreKept` | internal/adapters/consul/http.go:19-106 | requests on which no rule's two readings differ are treated as prescribed where no rule has a lone weightless backend |
| `HttpExamples.WeightlessBackendReceivesAll` | internal/adapters/consul/http.go:33-38 | a route whose only backend has weight zero and receives every request |
| `HttpExamples.SplitElementsAreRouted` | internal/adapters/consul/http.go:153-154 | a route under any prefix that receives the requests whose path continues the prefix's last element |
| `HttpExamples.AbcSplitsAbcd` | internal/adapters/consul/http.go:153-154 | a request for /abcd under the prefix /abc is such a request |
| `HttpExamples.SlashlessPathIsLost` | internal/adapters/consul/http.go:153-154 | a route under any prefix with a trailing slash that does not receive the requests for the prefix without it |
| `HttpExamples.AbcLacksSlash` | internal/adapters/consul/http.go:153-154 | a request for /abc under the prefix /abc/ is such a request |
| `HttpExamples.EmptyHeaderIsIgnored` | internal/adapters/consul/http.go:159-165 | a route that asks for a header with an empty value and receives requests without the header |
| `HttpChain.MergeMaps` | internal/adapters/consul/http.go:141-146 | entries of both, the second winning |
| `HttpChain.FiltersToHeaderModifier` | internal/adapters/consul/http.go:122-139 | a header is set, or added, if and only if some header filter sets, or adds, it, to the value of the last that does; the removals of all filters follow one another |
| `HttpChain.FiltersToPrefixRewrite` | internal/adapters/consul/http.go:108-118 | the replacement of the first filter that replaces the matched prefix, or none |
| `HttpChain.TranslateMatch` | internal/adapters/consul/http.go:148-231 | the specified translation of path, headers, query parameters and method |
| `HttpChain.SplitServices` | internal/adapters/consul/http.go:53-77 | the specified splits: services without weight vanish and the division is never by zero |
| `HttpChain.RuleDestination` | internal/adapters/consul/http.go:24-77 | a single service is the destination itself; several are reached through a virtual service and its splitter |
| `HttpChain.HttpRouteDiscoveryChain` | internal/adapters/consul/http.go:19-106 | exactly the specified router and splitters of the route |
| `HttpChain.RouteConsolidator.Add` | internal/adapters/consul/http.go:297-327 | every mention of a host appends all candidates of the route to the host's list |
| `HttpChain.FlattenRules` | internal/adapters/consul/http.go:297-327 | one candidate per match of each rule in order, a rule without matches counting as one that matches all |
| `Naming.RouterIsNeverVirtual` | internal/adapters/consul/http.go:233-242 | no router name of a gateway is the name of one of its virtual services |
| `Naming.VirtualNameUnique` | internal/adapters/consul/http.go:42-50 | the virtual service of a rule is named like no other rule's |
| `Naming.RouterNameUnique` | internal/adapters/consul/http.go:336-340 | router names coincide only for hosts with equal checksums |
| `Naming.NamesAreWritten` | internal/adapters/consul/http.go:233-242 | a router is named by the gateway's name, a dash and the checksum in hexadecimal; a virtual service by the router's name, a dash and the rule's number in decimal |
| `DiscoveryChain.ConsolidateHost` | internal/adapters/consul/http.go:331-364 | one route for the host whose rules are the stably sorted candidates |
| `DiscoveryChain.Consolidate` | internal/adapters/consul/http.go:331-364 | one consolidated route for exactly the hosts that are listed, in any order |
| `DiscoveryChain.FlattenHTTPRoutes` | internal/adapters/consul/sync.go:106-122 | TCP routes in order, then one consolidated HTTP route per listed host |
| `DiscoveryChain.FilterTCPRoutes` | internal/adapters/consul/sync.go:125-142 | at most the first TCP route is kept, every HTTP route is |
| `DiscoveryChain.MergeRoutes` | internal/adapters/consul/sync.go:144-147 | the first TCP route if any and one consolidated route per listed host |
| `DiscoveryChain.RouteDiscoveryChain` | internal/adapters/consul/sync.go:72-104 | the ingress service, router, splitters and defaults of one route; none but the service for TCP |
| `DiscoveryChain.DiscoveryChain` | internal/adapters/consul/sync.go:149-220 | the ingress has exactly the listeners with something to serve, each with its port, protocol and TLS settings, "TLSv1_2" and the default suites where none are given, and with exactly its services: the service of the first TCP route, then one per listed host, under the name of its router; the indexes hold exactly the entries of the consolidated routes, all with the gateway's namespace and metadata, and "http" defaults |
| `DiscoveryChain.ServicesOfByFields` | internal/adapters/consul/sync.go:184-217 | the services of an emitted listener, by the fields of its routes and hosts |
| `DiscoveryChain.IndexesByFields` | internal/adapters/consul/sync.go:170-182 | every router, splitter and defaults entry stands under its own name and has the gateway's namespace and metadata; the protocol of all defaults is "http" |
| `DiscoveryChain.ComputedIsConsistent` | internal/adapters/consul/sync.go:149-220 | defaults cover exactly routers and splitters, no router is a splitter, and every HTTP service of the ingress has a router |
| `DiscoveryChain.ServesIff` | internal/adapters/consul/sync.go:184-217 | a listener is emitted if and only if it has a TCP route or lists a host |
| `ChainSpec.DefaultsCoverExactly` | internal/adapters/consul/sync.go:79-88 | service-defaults exist for exactly the routers and the splitters |
| `ChainSpec.RoutersAndSplittersApart` | internal/adapters/consul/http.go:42-50 | routers and splitters of one gateway never share a name |
| `ChainSpec.UniqueRouteInstalled` | internal/adapters/consul/sync.go:172-182 | a route whose name no other route has keeps its router and exactly its splitters in the merged indexes |
| `ChainSpec.LookupIsLastSplitter` | internal/adapters/consul/sync.go:170-180 | a rule finds, in the merged index, the last splitter that a route of its name has for a rule of its number |
| `ChainSpec.LastRouteInstalledIff` | internal/adapters/consul/sync.go:170-180 | the last route of a name has exactly its splitters, where its rules need them, if and only if none of its rules is without a splitter that an earlier route of the name left; such a rule finds that one |
| `ChainSpec.LastListenerDecidesIff` | internal/adapters/consul/sync.go:149-220 | for a host that several listeners list, the entries computed for the whole gateway do to a request, through whichever listener it comes, what the routes of the last of them prescribe, if and only if the condition for one host's router holds, given that no rule inherits a splitter |
| `ChainSpec.GatewayEntriesPreserveMeaningIff` | internal/adapters/consul/sync.go:149-220 | for a host that one listener lists, the entries computed for the whole gateway do to a request what that listener's routes prescribe if and only if the condition for one host's router holds |
| `ChainExamples.TwoListenersChain` | internal/adapters/consul/sync.go:149-182 | the consolidated routes of a gateway two of whose listeners list one host |
| `ChainExamples.WeightlessRuleFollowsOldSplitter` | internal/adapters/consul/sync.go:170-180 | two such routes for which a request reaches a backend of the first, although only weightless backends are left for it |
| `ConfigEntries.ConfigEntryIndex.Add` | internal/consul/config_entries.go:22-30 | an entry of the index's kind replaces one of its name; others are ignored |
| `ConfigEntries.ConfigEntryIndex.Merge` | internal/consul/config_entries.go:32-42 | entries of both, the merged ones winning; nothing happens for a missing index or another kind |
| `ConfigEntries.ConfigEntryIndex.Difference` | internal/consul/config_entries.go:54-56 | exactly the entries of the other index whose names this one lacks |
| `ConfigEntries.ConfigEntryIndex.Intersection` | internal/consul/config_entries.go:58-60 | exactly the entries of the other index whose names this one has |
| `ConfigEntries.ConfigEntryIndex.ToArray` | internal/consul/config_entries.go:76-84 | every entry once, in some order |
| `SyncSpec.SyncWriteKeepsPhase` | internal/adapters/consul/sync.go:309-393 | any single write of any batch of a Sync keeps what the phase guarantees, whether it is applied or lost |
| `SyncSpec.ClearWriteKeepsPhase` | internal/adapters/consul/sync.go:258-307 | any single write of any batch of a Clear keeps what the phase guarantees |
| `SyncRuns.WritePrefixSafety` | internal/adapters/consul/sync.go:258-393 | after every individual write of every run, with any write failing, each stored router and splitter has its defaults and each HTTP service of the stored ingress its router and defaults |
| `SyncRuns.StepKeepsInv` | internal/adapters/consul/sync.go:258-393 | every call, however it ends, keeps stored entries safe and named as the gateway names them |
| `SyncRuns.SyncIsExactIffNoOrphans` | internal/adapters/consul/sync.go:309-393 | a completed Sync leaves exactly the computed entries if and only if nothing was stored before that is neither remembered nor computed |
| `SyncRuns.ClearIsExactIffNoOrphans` | internal/adapters/consul/sync.go:258-307 | a Clear that succeeds, also one of a gateway that is not remembered, leaves nothing if and only if nothing was stored that was not remembered |
| `SyncRuns.FailureFreeRunsAreExact` | internal/adapters/consul/sync.go:222-240 | after every failure-free run Consul holds exactly what was last computed, or nothing after a Clear |
| `SyncRuns.RetriesConverge` | internal/adapters/consul/sync.go:309-393 | from an exact state, any number of failed Syncs of one gateway followed by a successful one is exact again |
| `SyncRuns.ClearRetriesConverge` | internal/adapters/consul/sync.go:258-307 | from an exact state, any number of failed Clears followed by a successful one leaves nothing stored and nothing remembered |
| `SyncRuns.AbandonedSyncLeavesOrphan` | internal/adapters/consul/sync.go:309-393 | a failed Sync followed by a successful one without entries leaves service-defaults that the adapter does not remember |
| `SyncRuns.ClearAfterFailedSyncLeavesOrphan` | internal/adapters/consul/sync.go:258-264 | a failed first Sync followed by a successful Clear leaves its service-defaults |
| `SyncExamples.DeletedRouteLeavesOrphan` | internal/adapters/consul/sync.go:309-393 | this happens in a run from the start whose contents are computed for a real gateway, before and after its one route is deleted |
| `SyncExamples.DeletedGatewayLeavesOrphan` | internal/adapters/consul/sync.go:258-264 | and in one in which the gateway is deleted after its first Sync failed |
| `SyncAdapter.WriteEntries` | internal/adapters/consul/sync.go:49-70 | every entry is attempted even when some fail; the error is reported exactly if some failed |
| `SyncAdapter.RemovedEntries` | internal/adapters/consul/sync.go:332-337 | what is to be deleted is exactly what was remembered and is no longer computed |
| `SyncAdapter.Adapter.Sync` | internal/adapters/consul/sync.go:309-393 | the writes that took place are a run of the Sync plan up to its first failing batch, only this gateway is touched, and the new entries are remembered exactly if all writes succeeded |
| `SyncAdapter.Adapter.Clear` | internal/adapters/consul/sync.go:258-307 | the writes that took place are a run of the Clear plan; the gateway is forgotten exactly if all succeeded; an unknown gateway is left alone |
| `SyncAdapter.ComputedHasItsNames` | internal/adapters/consul/sync.go:149-220 | what is computed for a gateway has router names and splitter names of that gateway only |
| `ServiceNames.ServiceNameIndex.Add` | internal/common/service_names.go:23-27 | the index holds the added names besides the old ones |
| `ServiceNames.ServiceNameIndex.Remove` | internal/common/service_names.go:29-33 | the index holds the old names but the removed ones |
| `ServiceNames.ServiceNameIndex.Diff` | internal/common/service_names.go:35-51 | exactly the names that are new and exactly those that are gone, each once |
| `ServiceNames.ServiceNameIndex.All` | internal/common/service_names.go:53-59 | every name once, in some order |
| `IntentionSpec.UpdateKeepsOthers` | internal/consul/intentions.go:239-269 | adding or removing the gateway's source keeps all other sources in order; a modification is reported exactly when something changed |
| `IntentionSpec.UpdatedByFields` | internal/consul/intentions.go:239-269 | adding appends the gateway's source unless one with its name and namespace, "" and "default" being one, is there; removing takes the first such source away; nothing else moves |
| `IntentionSpec.AcceptedCasUpdatesCurrent` | internal/consul/intentions.go:295-352 | when a compare-and-set is accepted after arbitrary foreign writes, the entry stored at that moment changes only by the gateway's source |
| `IntentionSpec.AttemptKeepsOthersIff` | internal/consul/intentions.go:299-333 | an attempt keeps all sources but the gateway's, at every key, if and only if it does not both take effect and empty an intention, as it was read, to which others have added sources since |
| `IntentionSpec.HistoryKeepsOthersIff` | internal/consul/intentions.go:236-334 | whatever others write meanwhile, of all writes that Consul applied in a chain of attempts none lost what others had stored at that moment, if and only if none emptied an intention that others had added to; granting never does |
| `IntentionRuns.NoOrphanGrants` | internal/consul/intentions.go:236-334 | in every state reachable from any contents of Consul each target that grants access is indexed or condemned or granted it before the start, no target is both indexed and condemned, and every indexed target has a referring source |
| `IntentionRuns.SyncIsExactIff` | internal/consul/intentions.go:236-278 | after a synchronisation without error nothing is condemned, and exactly the indexed targets grant access if and only if no indexed target shares its key with a condemned one and none granted access untracked |
| `IntentionExamples.RespelledTargetLosesItsGrant` | internal/consul/intentions.go:236-300 | a run in which a target changes from one spelling of the default namespace to the other and every synchronisation without error takes its grant away |
| `IntentionExamples.OldGrantsStay` | internal/consul/intentions.go:236-278 | a grant made before the reconciler started and not tracked since stays through a synchronisation without error |
| `IntentionExamples.RacedDeleteLosesOthers` | internal/consul/intentions.go:310-321 | an attempt that reads the gateway's source as the only one, and whose delete takes away the source that others added meanwhile |
| `IntentionRuns.DeltasRebuildTheWhole` | internal/consul/intentions.go:281-293 | in runs that drop no service a source refers to a target if and only if the target is in what its watcher last delivered |
| `IntentionRuns.ServicesKeepAgreementIff` | internal/consul/intentions.go:202-221 | changing the services keeps that agreement if and only if no dropped watcher had delivered a target |
| `IntentionExamples.DroppedServiceKeepsItsGrants` | internal/consul/intentions.go:202-221 | a run in which a service that delivered a target is dropped and the target goes on being granted access although no watcher leads to it |
| `IntentionRuns.GrantsFollowTheChainsIff` | internal/consul/intentions.go:236-293 | after a run that drops no service and a synchronisation without error exactly the targets last delivered by the watched chains grant access, if and only if no indexed target shares its key with a condemned one and none granted access untracked |
| `Intentions.ConsulConfig.CAS` | internal/consul/intentions.go:323-331 | the write is applied only if the index is still the one read, may fail either way, and is logged with the worlds before and after exactly if it is applied |
| `Intentions.Reconciler.UpdateIntentionSources` | internal/consul/intentions.go:295-334 | at most four attempts account for all that happened to Consul during the call apart from what others wrote, and for exactly what Consul logged: the world of each reading, and the worlds before and after each write it applied; none of these writes lost what others had stored unless it emptied an intention they had added to, and none does when granting; without error the target grants access exactly as asked |
| `Intentions.Reconciler.SyncIntentions` | internal/consul/intentions.go:236-278 | every indexed target is granted and every condemned one revoked unless an error is reported, and condemned targets are forgotten only once revoked; what Consul logged is exactly one chain of attempts, additions at indexed and removals at condemned targets, in which no write lost what others had stored unless it emptied an intention they had added to |
| `Intentions.Reconciler.AddRef` | internal/consul/intentions.go:362-367 | the source refers to the target in addition |
| `Intentions.Reconciler.DelRef` | internal/consul/intentions.go:371-378 | the source no longer refers to the target, and a target without sources is not indexed |
| `Intentions.Reconciler.HandleChainResult` | internal/consul/intentions.go:281-293 | references and tombstones become those of the delivered difference |
| `Intentions.Reconciler.UpdateChainWatchers` | internal/consul/intentions.go:202-221 | exactly the services of the ingress are watched; watchers that stay keep what they delivered |
| `Intentions.Reconciler.WatchOnce` | internal/consul/disco_chain_watcher.go:54-91 | what changed since the last delivery is handled, and the services that the chain leads to become the last delivery |
| `Intentions.CompiledDiscoChainToServiceNames` | internal/consul/disco_chain_watcher.go:93-107 | a service is in the set if and only if some target of the chain is it, other than the chain's own service unless the chain's protocol is "tcp" |
| `Intentions.OwnServiceOnlyForTcp` | internal/consul/disco_chain_watcher.go:93-107 | a tcp chain leads to every service it targets; any other chain never leads to its own service |
| `Intentions.GrantsFollowCompiledChainsIff` | internal/consul/intentions.go:236-293 | after every run without dropped services and a synchronisation without errors, exactly the services that the last chains of the watched services lead to grant the gateway access, if and only if no target shares its key with a condemned one and nothing grants access untracked |
| `SecretProps.SetResourcesIsExactWithFrame` | internal/envoy/secrets.go:156-186 | on success the node watches exactly the requested names; whatever happens no other node's watch set or references change |
| `SecretProps.SetResourcesKeepsSound` | internal/envoy/secrets.go:156-186 | references stay watched and certificates stay referenced whatever fails |
| `SecretProps.SetResourcesKeepsComplete` | internal/envoy/secrets.go:156-186 | when all fetches succeed every watched name refers back to its node |
| `SecretProps.SuccessRegistersIff` | internal/envoy/secrets.go:156-186 | a successful call leaves the node referring to all it asked for if and only if it watched none of it without a reference before |
| `SecretProps.FailedFetchIsNotRetried` | internal/envoy/secrets.go:197-237 | a name whose fetch failed is watched, and asking again succeeds without fetching it |
| `SecretProps.ForcedRefreshRepairs` | internal/envoy/secrets.go:323-350 | a forced pass in which everything succeeds makes the cache equal to the registry |
| `SecretProps.NothingDueAfterwards` | internal/envoy/secrets.go:323-350 | after a pass in which all can be fetched, pushed and last ten minutes more, every certificate lasts that long and another unforced pass at that time changes nothing |
| `SecretProps.WatchRegistersAnswers` | internal/envoy/secrets.go:197-237 | certificates known before keep secret and expiry; newly registered ones are requested names, with the secret and expiry that were fetched |
| `SecretProps.UnwatchAllFacts` | internal/envoy/secrets.go:240-264 | the node watches nothing and is referred to nowhere, and other nodes are untouched |
| `SecretRuns.LeakFreedom` | internal/envoy/handler.go:57-116 | in every run every certificate has a reference and every reference is a watched node listing it; watched nodes belong to open streams throughout if and only if no stream abandons a node, and nothing is then left once all streams have closed |
| `SecretRuns.CacheRefinesRegistry` | internal/envoy/secrets.go:197-264 | with any fetch or update failing, cached names are registered ones with equal contents, and none once all streams have closed if no stream abandoned a node |
| `SecretRuns.CacheEqualsRegistryWhenServed` | internal/envoy/secrets.go:197-376 | when nothing fails the cache is exactly the registry |
| `SecretRuns.RefreshRepairsReachable` | internal/envoy/secrets.go:323-350 | from every reachable state a successful forced refresh makes the cache equal to the registry |
| `SecretRuns.WatchersAndReferencesAreInverse` | internal/envoy/secrets.go:156-304 | in runs without fetch failures a node watches a name if and only if the certificate refers to the node |
| `SecretAccess.OnlyPermittedAreHeld` | internal/envoy/handler.go:86-116 | in every run a node watches a name only if it asked for it while its gateway carried that certificate, every registered certificate is watched by such a node, and so is every cached one unless a delete failed |
| `SecretRuns.CloseSparesOthersIff` | internal/envoy/handler.go:68-83 | closing a stream leaves other streams' nodes watching what they did if and only if the nodes of streams that share its node watch nothing |
| `SecretExamples.SharedNodeLosesItsWatch` | internal/envoy/handler.go:68-83 | a run without failures in which closing one of two streams of a node takes the watch and the certificate from the other, open, stream |
| `SecretRuns.RenamingKeepsOwnedIff` | internal/envoy/handler.go:86-116 | after a request watched nodes belong to streams if and only if the stream does not leave a watched node that no other stream names |
| `SecretExamples.RenamedStreamLeaks` | internal/envoy/handler.go:86-116 | a run without failures in which a stream changes its node and closes, and the old node stays watched and its certificate cached though no stream is open |
| `Secrets.SecretManager.Watch` | internal/envoy/secrets.go:197-237 | the manager makes exactly the specified step: up to the first failing fetch names are watched, registered or referred to, then pushed |
| `Secrets.SecretManager.Unwatch` | internal/envoy/secrets.go:276-304 | the manager makes exactly the specified step: references go, and certificates nobody refers to leave registry and cache |
| `Secrets.SecretManager.UnwatchAll` | internal/envoy/secrets.go:240-264 | the manager makes exactly the specified step for some order of the watch set |
| `Secrets.SecretManager.SetResourcesForNode` | internal/envoy/secrets.go:156-186 | new names are watched first; stale ones are unwatched only if that succeeded |
| `Secrets.SecretManager.Manage` | internal/envoy/secrets.go:323-350 | with force every certificate, without it exactly those that have less than ten minutes left by the given clock, are replaced by the answer in registry and cache if fetch and push succeed; all others stay as they are, for any order of the registry |
| `Secrets.RequestHandler.OnStreamRequest` | internal/envoy/handler.go:86-116 | the stream is tied to its node and the node's resources are set, if and only if the stream's gateway is stored and carries every certificate asked for |
| `Secrets.RequestHandler.OnStreamClosed` | internal/envoy/handler.go:68-83 | the stream's node is unwatched and the stream forgotten |
| `RouteStatus.MergeIsCanonical` | internal/k8s/reconciler/status/route.go:31-35 | the merged status is the same for every order in which findings and existing entries are visited |
| `RouteStatus.MergeKeepsOthersReplacesOwn` | internal/k8s/reconciler/status/route.go:31-52 | every entry of other controllers is kept as often as it was there; of this controller's exactly those of the findings remain, each once |
| `RouteStatus.NeedsUpdateIffOutOfDate` | internal/k8s/reconciler/status/route.go:37-41 | no update is called for if and only if this controller's entries have exactly the references of the findings and say what they say, timestamps and order of conditions aside |
| `RouteStatus.UpToDateIffSaysAll` | internal/k8s/reconciler/status/route.go:37-41 | the entries of this controller are up to date if and only if they are one for every finding, each with exactly the two conditions it asks for, by type, status, generation, reason and message |
| `RouteStatus.MergeSaysAll` | internal/k8s/reconciler/status/route.go:31-35 | after merging they are, for every order |
| `RouteStatus.StoredStatusNeedsNoUpdate` | internal/k8s/reconciler/status/route.go:37-41 | once the merged status is stored, reconciling again at any later time writes nothing |
| `RouteStatus.ContentIgnoresClock` | internal/k8s/reconciler/status/route.go:54-64 | the clock changes neither the content nor the order of this controller's conditions |
| `RouteStatus.FilterParentStatuses` | internal/k8s/reconciler/status/route.go:43-52 | exactly the entries of other controllers, in order |
| `RouteStatus.Statuses` | internal/k8s/reconciler/status/route.go:19-29 | for every finding exactly one entry of this controller, for its parent, with exactly an "Accepted" and a "ResolvedRefs" condition that have the status, reason and message of the finding's first and second outcome and the generation |
| `RouteStatus.SortParentStatuses` | internal/k8s/reconciler/status/route.go:54-64 | conditions sorted within each entry, then entries sorted |
| `RouteStatus.MergedStatus` | internal/k8s/reconciler/status/route.go:31-35 | the merge for some order of the findings; this controller's entries in it say exactly what the findings say, condition by condition |
| `RouteStatus.ConditionsEqual` | internal/k8s/reconciler/status/equality.go:16-39 | equal if and only if the same conditions in the same order, timestamps aside |
| `RouteStatus.RouteStatusEqual` | internal/k8s/reconciler/status/equality.go:67-89 | equal if and only if the same entries in the same order, timestamps aside |
| `RouteStatus.NeedsUpdate` | internal/k8s/reconciler/status/route.go:37-41 | the merged status says exactly what the findings say, and an update is called for if and only if the stored one does not |
| `JsonOrder.FieldByFieldIsJsonLike` | internal/k8s/reconciler/status/route.go:54-64 | comparing field by field in the order of the JSON fields is an order as the merge relies on |
| `StatusTracking.RejectedIffFailedSince` | internal/k8s/reconciler/status/route.go:66-119 | over every history a parent is reported if and only if the last word on it was not its removal, and as not accepted if and only if binding failed since it was last bound |
| `StatusTracking.UnresolvedIffFailedSince` | internal/k8s/reconciler/status/route.go:66-119 | over every history a reported parent has unresolved references if and only if a resolution failure was recorded since it was last bound or removed, whatever binding failures came after it |
| `StatusTracking.FindingsAfterHistory` | internal/k8s/reconciler/status/route.go:66-119 | over every history the finding on a reported parent is accepted with "True" exactly if no binding failed since it was last bound or removed, and otherwise "False" with the reason of the first kind of failure, by precedence, that did, and the message of the last such; the same for resolution |
| `StatusTracking.StatusAfterHistory` | internal/k8s/reconciler/status/route.go:19-119 | in a status brought up to date after any history this controller's entries are for exactly the parents not removed since; "Accepted" is "False" if and only if binding failed since the parent was last bound or removed, and "ResolvedRefs" if and only if resolving its references did |
| `StatusTracking.RouteStatuses.RecordFailure` | internal/k8s/reconciler/status/route.go:66-105 | the failure is added to what is known of the parent |
| `StatusTracking.RouteStatuses.RecordBound` | internal/k8s/reconciler/status/route.go:107-115 | the parent has no errors any more |
| `StatusTracking.RouteStatuses.CheckUpdate` | internal/k8s/reconciler/status/route.go:37-41 | the status to store says, condition by condition, what has been recorded, and it is out of date if and only if the stored one does not |

## Left out

- Kubernetes and Consul clients, gRPC and TLS serving, deployment of pods, commands, metrics and logging: plumbing around the cores.
- JSON and Kubernetes serialisation: marshalling is the identity on values; the stored form of a gateway or route is the value itself.
- Writes of `canBind` to the route's parent statuses while binding: they never influence binding; what they record is modelled on its own in `StatusTracking`.
- Listener attributes that validation derives from pods and services (addresses, gateway-level readiness): they are assigned field by field and routes do not depend on them.
- Namespace labels, on which listener namespace selectors depend, are fixed along a run of the store.
- The periodic full sync of the store and the writing of route statuses after a sync: they repeat calls that are modelled.
- Conversion of Kubernetes route rules to resolved rules: a resolved rule is what a route carries.
- Redirect filters, which compilation ignores, and mirrored or delegated traffic.
- Rounding of split weights to 32-bit floats: percentages are real numbers.
- CRC32 of hostnames: an arbitrary function; where distinct hosts must have distinct checksums, the statement says so.
- Links from routers to splitters in the middle of a Sync: routers are written before splitters.
- Config entry names of different gateways are disjoint: Consul's entries are kept per gateway.
- Sharing of index objects between the adapter's memory and a caller: the remembered entries are values.
- Timers, tickers, backoff delays, blocking queries and the wait index of watchers: a retry, a refresh and a delivery are steps.
- A watcher that delivers once more after it was cancelled.
- Other writers adding or removing the gateway's own source in an intention, and intentions that list the gateway's source more than once: a removal takes only its first occurrence away.
- Rules of different routes that are equal in precedence: the Gateway API lets the older route win; creation times are not modelled, and the rule visited first wins.
- Locks of the secret manager: each call is one step, although setting resources and refreshing hold only the read lock.
- Secret names as URLs and parsing of certificates: a fetched secret has the name that was asked for.
- Blanks outside Latin-1 around the names of cipher suites: they are not trimmed in the model.
- Sorting entries and conditions in place: sorted sequences are values.
- HttpCorrect.CompilationPreservesMeaningIff: requires weights within the Gateway API's limits, and that no backend has a splitter and no virtual service instances of its own.
- HttpFields.RouterDeliversAsAsked: requires the same.
- ChainSpec.LastListenerDecidesIff: requires the same, distinct checksums of the listed hosts, and that no rule of the last listener inherits a splitter; `LastRouteInstalledIff` says what such a rule finds instead.
- ChainSpec.GatewayEntriesPreserveMeaningIff: requires the same for a host listed by one listener, where nothing is inherited.
- Binder.RouteIDUnique: requires namespaces without a slash, as Kubernetes names are.
- Precedence.SliceStable: the library's stable sort is modelled by insertion; nothing depends on how it sorts.
- RouteStatus.NeedsUpdate: takes the order of JSON texts as any total order that compares field by field; `JsonOrder` gives one.
