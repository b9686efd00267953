# A verified model of the agentic-networking controller

The repository is a Kubernetes controller for Gateways that front MCP tool servers. It runs an Envoy
proxy per Gateway, compiles Gateway, HTTPRoute, XBackend and XAccessPolicy objects to Envoy
configuration, and signs the workload certificates that the access policies rely on. This project
models four of its cores in Dafny 4.11 and proves what they are for.

`dafny verify dfyconfig.toml` checks the whole project.

**A. Finalizers.** `FinalizerProtocol` is a state machine whose steps are the single API calls, cache
reads and queue operations of `syncGateway` and `syncBackendFinalizer`, interleaved in any order with
users, informers, failing calls and restarts. Objects are histories of versions; the cache lags but
does not go back; an Update on an old version is rejected. `FinalizerSafety` proves that no proxy is
ever orphaned, for any function that names the proxies, `FinalizerWakeups` that no deletion is
forgotten unless an update drops a reference silently, `FinalizerLimits` that an update can by itself
make one forgotten exactly if it does, `FinalizerProgress` what the worker achieves when its calls succeed,
`FinalizerSteps` what its handlers queue and which calls it tries again. `References` ties the abstract `targets` to parentRefs and targetRefs, `Finalizers` is the in-place edit of the
finalizer list.

**B. Signing.** `Rendezvous` is the election of an owner, for an arbitrary hash function;
`SigningProtocol` any number of replicas with their own stale caches, leases and queues.
`SigningSafety` proves at most one issuance, `SigningAuthority` that only the assigned replica issues
and only for this signer, `SigningLiveness` that no request is lost and that a
steady state agrees on one owner. `Spiffe` and `Identity` prove that the certificate's URI is the
principal a ServiceAccount rule compiles to.

**C. Access policies.** `AccessPolicies` gives an XAccessPolicy a meaning, `EnvoyRbac` gives one to the
RBAC configuration it is compiled to; compilation preserves the decision for every request.
`ExtAuthz` and `HttpFilters` follow a request through the whole filter chain and prove which
external authorization service decides about it.

**D. Gateways and HTTPRoutes.** `Hostnames`, `Listeners`, `FilterChains`, `RouteMatching`,
`RouteOrder`, `RouteTranslation`, `Attachment`, `VirtualHosts` and `GatewayTranslation` are the
translation to virtual hosts, filter chains and clusters. `GatewayRouting` and `HostSelection` state
what the result does with a request, in terms of the Gateway API, `MatchAgreement` which matches mean
the same on both sides, `ClusterOwnership` where forwarded requests end up, `PolicyEnforcement` under
which policy they do. `ServiceEvents` and `ServiceCoverage` are the wake-ups that keep it current,
`XdsVersions` is the numbering of its snapshots.

Properties that turn out not to hold of the code are kept as the code has them: each comes with a
concrete input and with the exact condition under which the property holds.

| property | input | exact condition |
|---|---|---|
| a deletion is never forgotten | `FinalizerLimits.FoldedRecreationLosesWakeup`, `NarrowedPolicyLosesWakeup` | `FinalizerLimits.ForgetsIffSilent`, with `FinalizerWakeups.NoLostWakeup` for whole runs |
| a proxy belongs to its own Gateway | `FinalizerLimits.SharedNameSharesProxy` | `FinalizerLimits.OwnProxiesIffDistinctNames` |
| the election does not depend on the order of the leases | `Rendezvous.EmptyNamesDisagree` | `Rendezvous.AgreementIffOwnerIsNamed` |
| every rule of a policy counts | a rule under one of the three reserved names | `AccessPolicies.EveryRuleCounts`, `ReservedNamesAreLost` |
| what the authorization service refuses is not forwarded | `HttpFilters.XBackendCannotAuthorize` | `HttpFilters.FailsOpenIffUnsupported` |
| checks go to the service a rule names | `HttpFilters.SharedConfigurationIsMisrouted` | `HttpFilters.OwnServiceIffSameNamespace` |
| virtual hosts serve the hosts of the Gateway API | `Hostnames.WiderWildcardIsLost`, `ParentDomainIsAccepted` | `Hostnames.SpecifiedIffBacked` |
| a programmed listener has its filter chain | `FilterChains.TlsBehindHttpHasNoChain` | `FilterChains.HasChainIff` |
| matches mean the same to Envoy: methods | `RouteMatching.MethodIsIgnored` | `MatchAgreement.AgreesIffMethodIsIdle` |
| matches mean the same to Envoy: repeated names | `MatchAgreement.RepeatedHeaderIsDemanded` | `MatchAgreement.AgreesIffHarmless` |
| matches mean the same to Envoy: types of queries | `MatchAgreement.TypedQueryIsTakenLiterally` | `MatchAgreement.AgreesIffPatternsMatchThemselves` |
| routes are tried in the Gateway API's precedence | `RouteMatching.HeaderGoesBeforeMethod` | `RouteMatching.OrderIsPrecedence` |
| forwarded requests reach their own backend | `ClusterOwnership.TwoPortsOneCluster`, `RouteTranslation.NamesCollide` | `ClusterOwnership.ReachOwnIffLastAgrees`, `AllOwnIffUnambiguous`, `ClashIff` |
| an XBackend is reached only under its policy | `PolicyEnforcement.DirectReferenceLeadsAround` | `PolicyEnforcement.BypassIff` |
| a reference's Service wakes its Gateways | `ServiceCoverage.ImproperRefIsMissed` | `ServiceCoverage.CoveredIffProper` |
| a Service event wakes the Gateways it affects | `ServiceCoverage.PortChangeIsNotHeard` | `ServiceCoverage.AffectedGatewaysAreWokenIffHeard` |
| the versions of a node increase | `XdsVersions.SharedNodeFallsBack` | `XdsVersions.IncreaseIffDistinctNodes` |
| updates get versions of their own | `XdsVersions.OverlappingUpdatesShareAVersion` | `XdsVersions.SameVersionIffNoAddBetween` |

Two places where the comments and the code differ, and the model follows the code: the routes of a
virtual host are said to be sorted stably (`pkg/translator/httproute.go:502`), which `sort.Slice` does
not promise; and the deletion timestamps are compared by address (`pkg/controller/gateway.go:80`), so
an update of an object under deletion always counts as a change.

## Model

| member | source | states |
|---|---|---|
| `FinalizerSafety.NoOrphanProxy` | pkg/controller/controller.go:325-376 | In every state of every run, any number of workers, lagging caches, failed and half-failed calls, restarts and re-creations under the same name included, and whatever function names the proxies: if a proxy resource of some name exists, the API server holds a Gateway of that proxy name with the finalizer |
| `FinalizerSafety.OwnProxyIsPinned` | pkg/controller/controller.go:325-376 | A Gateway that shares its proxy name with no other that ever existed, and some of whose proxy exists, is at the API server with the finalizer |
| `FinalizerLimits.OwnProxiesIffDistinctNames` | pkg/infra/envoy/proxy.go:64-71 | That every proxy belongs to a pinned Gateway of its own holds in all runs if and only if no two Gateways share a proxy name |
| `FinalizerLimits.SharedNameSharesProxy` | pkg/infra/envoy/proxy.go:64-71 | A run in which the proxy of one Gateway exists under the name of another that does not exist |
| `FinalizerSafety.ProxiesStep` | pkg/infra/envoy/proxy.go:75-92 | Every step keeps each proxy resource guarded by a pinned Gateway whose worker has not yet deleted it |
| `FinalizerSafety.GuardsMove` | pkg/infra/envoy/proxy.go:234-268 | A worker takes the finalizer off only after it deleted the resource |
| `FinalizerSafety.SafeStep` | pkg/controller/controller.go:308-414 | Every enabled step of users, informers, queue and workers keeps what a worker at each program point knows about its object's versions, those ahead of the cache included |
| `FinalizerSafety.SafeProxyCall` | pkg/infra/envoy/proxy.go:75-92 | A creation or deletion of one proxy resource that succeeds, fails, or fails after taking effect keeps the invariant of its key |
| `FinalizerSafety.SafeStrip` | pkg/controller/controller.go:348-357 | The write that takes the finalizer off goes through only on the version that was torn down, and no pinned version ahead of the cache loses it |
| `FinalizerSafety.MoveOfAnotherKey` | pkg/controller/controller.go:308-414 | A worker leaves every other key's object, worker and queue entries untouched |
| `FinalizerWakeups.NoLostWakeup` | pkg/controller/controller.go:343-358 | In every state of every run that shows no update silently dropping it, a doomed owner that the cache shows is referenced by a cached referrer, queued, backing off, heeded by its worker, or named by a notification on its way |
| `FinalizerWakeups.RoutesInPlaceAreFaithful` | pkg/controller/httproute.go:53-60 | Updates of one and the same HTTPRoute are never silent, so runs without re-creations folded into updates are faithful to every Gateway |
| `FinalizerWakeups.LateNewsWakes` | pkg/controller/gateway.go:74-87 | While the cache lags behind a doomed owner, observing it produces an event whose handler enqueues it |
| `FinalizerWakeups.QuietMeansReferenced` | pkg/controller/backend.go:105-116 | When nothing is left to do, an owner stuck in deletion has a referrer at the API server |
| `FinalizerWakeups.AttendedObserveReferrer` | pkg/controller/httproute.go:53-78 | A reference that vanishes from the cache leaves a notification that names its former target |
| `FinalizerLimits.SilentUpdateForgets` | pkg/controller/accesspolicy.go:50-57 | For every history a referrer can have and every update in it that silently drops an owner, a run that shows exactly this update, nothing else that is silent, and ends with the owner forgotten |
| `FinalizerLimits.ForgetsIffSilent` | pkg/controller/httproute.go:53-60 | An update in a referrer's history can by itself make an owner forgotten if and only if it drops the owner silently |
| `FinalizerLimits.UnfaithfulStepsForget` | pkg/controller/httproute.go:53-60 | The very update that breaks the condition of the no-lost-wake-up theorem in any run can by itself make the owner forgotten |
| `FinalizerLimits.SilentRouteUpdates` | pkg/controller/httproute.go:53-60 | HTTPRoute updates are silent exactly when they drop the Gateway without looking like a change |
| `FinalizerLimits.SilentPolicyUpdates` | pkg/controller/accesspolicy.go:50-57 | Policy updates are silent exactly when they drop the XBackend |
| `FinalizerLimits.NarrowedPolicyLosesWakeup` | pkg/controller/accesspolicy.go:50-57 | A run that forgets an XBackend because a policy, one and the same object, dropped it from its targets |
| `FinalizerLimits.FoldedRecreationLosesWakeup` | pkg/controller/httproute.go:53-60 | A run that forgets a Gateway because an HTTPRoute was replaced by another of its name, generation and annotations without the parent |
| `FinalizerProgress.TeardownCompletes` | pkg/infra/envoy/proxy.go:234-268 | From any reachable state, an unreferenced Gateway under deletion loses all its proxy resources and then its finalizer by the worker's own steps, and is gone if and only if no other finalizer holds it |
| `FinalizerProgress.PinComesFirst` | pkg/controller/controller.go:360-367 | A new Gateway gets its finalizer before anything else and is queued again |
| `FinalizerProgress.ProxyIsBuilt` | pkg/infra/envoy/proxy.go:75-92 | A pinned Gateway gets all four proxy resources |
| `FinalizerProgress.BackendIsReleased` | pkg/controller/backend.go:105-116 | From any reachable state, an XBackend under deletion that no cached policy targets loses the finalizer by the worker's own steps, and is gone if and only if no other finalizer holds it; no retry is left behind |
| `FinalizerProgress.BackendIsPinned` | pkg/controller/backend.go:118-122 | A new XBackend gets the finalizer at the end of its list; nothing else about it changes and it is not queued again |
| `FinalizerProgress.NothingToDo` | pkg/controller/controller.go:333-346 | A Gateway of another controller, an owner under deletion that is still referenced, an XBackend that has the finalizer or is gone: the worker leaves the whole state as it is, its key no longer queued |
| `FinalizerProgress.GoneIsTornDown` | pkg/controller/controller.go:325-329 | A Gateway that is gone, or goes without the finalizer on it, loses all its proxy resources, nothing is written and nothing is left to retry |
| `FinalizerSteps.OwnerNoticeQueues` | pkg/controller/gateway.go:54-113 | A notification about an owner queues its key exactly if the object is this controller's and, for an update, generation or annotations differ or it is under deletion |
| `FinalizerSteps.ReferrerNoticeQueues` | pkg/controller/accesspolicy.go:44-100 | A notification about a referrer queues exactly the owners it refers to: of an updated HTTPRoute the old and the new ones, of an updated policy the new ones, and only cached XBackends |
| `FinalizerSteps.ErrorsAreRetried` | pkg/controller/controller.go:252-304 | A synchronisation ends with a retry exactly if one of its calls failed or met a newer version of the object |
| `FinalizerSteps.OnlyPinQueuesAgain` | pkg/controller/controller.go:360-367 | Of all calls only the one that gives a Gateway its finalizer queues the key again, and only if it succeeds |
| `FinalizerSteps.FailedCallHasNoEffect` | pkg/controller/controller.go:348-357 | A call that fails before it reaches the server, or that meets a newer version, changes neither object nor proxy |
| `FinalizerSteps.PublishKeepsTheObject` | pkg/controller/controller.go:401-409 | Publishing changes no field the protocol knows; a status write is a new version exactly if the object was current |
| `Finalizers.ObjectMeta.EnsureFinalizer` | pkg/controller/finalizers.go:25-35 | The list gains the finalizer at its end if it was missing; the result says whether it changed |
| `Finalizers.ObjectMeta.RemoveFinalizer` | pkg/controller/finalizers.go:38-54 | The list loses every occurrence and nothing else; the result says whether it changed |
| `Finalizers.RemoveUndoesEnsure` | pkg/controller/finalizers.go:25-54 | Removing undoes adding |
| `Finalizers.EnsureTwiceIsOnce` | pkg/controller/finalizers.go:25-35 | The finalizer is there once added, and adding it again changes nothing |
| `References.HasHTTPRoutesReferencingGateway` | pkg/controller/controller.go:417-439 | True exactly when some HTTPRoute has the Gateway among its targets |
| `References.RouteTargetsIff` | pkg/controller/controller.go:424-436 | The targets of a route are the Gateways named by parent references whose group and kind are absent or those of Gateways, the namespace defaulting to the route's |
| `References.RouteWakesItsTargets` | pkg/controller/httproute.go:82-100 | The handlers enqueue exactly the Gateways the deletion test looks for |
| `References.OnHTTPRouteUpdate` | pkg/controller/httproute.go:53-60 | An update that changes generation or annotations, or is under deletion, enqueues the parents before and after; any other nothing |
| `References.UpdateWakesEventTargets` | pkg/controller/httproute.go:53-60 | The event of the finalizer protocol names a Gateway exactly if generation or annotations differ or the route is under deletion, and it is a parent before or after |
| `References.HasAccessPoliciesTargetingBackend` | pkg/controller/backend.go:127-145 | True exactly when some policy has the XBackend among its targets |
| `References.PolicyTargetsIff` | pkg/controller/backend.go:134-142 | A policy holds back exactly the XBackends of its namespace that a target names with the agentic group and the kind XBackend |
| `References.HeldIffGroupIsNamed` | pkg/translator/accesspolicy.go:100-106 | A policy applies to an XBackend by kind and name alone; one that applies also holds the XBackend back if and only if a target spells out the group, as the API demands |
| `References.EnqueueBackendsForAccessPolicy` | pkg/controller/accesspolicy.go:79-100 | Enqueues exactly the targets that are in the cache |
| `Rendezvous.AssignedToThisReplica` | pkg/infra/rendezvous/hasher.go:226-281 | True exactly when this replica is the owner among the live ones (highest weight, smallest name on ties), and then it holds a lease with now at most renew time plus duration |
| `Rendezvous.CandidatesRenewedInTime` | pkg/infra/rendezvous/hasher.go:240-257 | The candidates are exactly the holders of leases with now at most renew time plus duration, an absent duration counting as 0 |
| `Rendezvous.OwnerRenewedInTime` | pkg/infra/rendezvous/hasher.go:247-250 | Whoever owns an item holds a lease that has not run out |
| `Rendezvous.ExpiredLeaseIsIdle` | pkg/infra/rendezvous/hasher.go:247-250 | A lease that has run out, wherever it stands in the list, changes no answer |
| `Rendezvous.DeadReplicaOwnsNothing` | pkg/infra/rendezvous/hasher.go:247-250 | A replica that died owns nothing, whatever the hash |
| `Rendezvous.AgreementIffOwnerIsNamed` | pkg/infra/rendezvous/hasher.go:259-278 | Every listing of a live set, in any order and with repetitions, elects its owner if and only if the owner has a non-empty name or is alone |
| `Rendezvous.ExactlyOneIsAssigned` | pkg/infra/rendezvous/hasher.go:226-281 | Replicas that see the same set live, with an owner that has a name, agree; exactly one of them finds the item assigned to itself |
| `Rendezvous.MinimalDisruption` | pkg/infra/rendezvous/hasher.go:259-278 | Over any sequence of joins and leaves an item changes hands only if its owner left or its new owner joined |
| `Rendezvous.LeavingMovesOnlyOwnItems` | pkg/infra/rendezvous/hasher.go:259-278 | A replica that leaves takes no owner away from items it did not own |
| `Rendezvous.JoiningTakesItemsOnlyForItself` | pkg/infra/rendezvous/hasher.go:259-278 | A replica that joins moves items only to itself |
| `Rendezvous.EmptyNamesDisagree` | pkg/infra/rendezvous/hasher.go:264-268 | With an empty holder name the outcome depends on the order of the list |
| `SigningSafety.AtMostOneIssuance` | pkg/infra/agentidentity/signercontroller/signercontroller.go:131-212 | In every state of every run of any number of replicas that disagree about ownership, no request was issued two certificates |
| `SigningSafety.AnswersAreFinal` | pkg/infra/agentidentity/signercontroller/signercontroller.go:182-212 | An answered request keeps its answer, certificate chain included, for the rest of the run |
| `SigningSafety.SafeRun` | pkg/infra/agentidentity/signercontroller/signercontroller.go:131-212 | The inductive invariant: histories, workers and the books of issuances agree in every state |
| `SigningAuthority.OnlyOwnRequestsAreIssued` | pkg/infra/agentidentity/signercontroller/signercontroller.go:173-177 | In every state of every run, a request with a certificate is one for this signer |
| `SigningAuthority.IssuerWasAssigned` | pkg/infra/agentidentity/signercontroller/signercontroller.go:194-209 | In every run, a replica that stores a certificate decided on it before as the owner among the replicas it then saw live, itself by a cached lease that had not run out |
| `SigningAuthority.HasherMayAnswer` | pkg/infra/rendezvous/hasher.go:226-281 | What the hasher computes from the cached leases, in any order, is an answer the protocol allows |
| `SigningAuthority.RenewalKeepsLive` | pkg/infra/rendezvous/hasher.go:158-212 | A replica that renews its lease is live for 15 seconds to whoever sees the lease, and not longer by it |
| `SigningLiveness.NoLostRequest` | pkg/infra/agentidentity/signercontroller/signercontroller.go:82-168 | Every open request in a replica's cache is queued, backing off, in process, awaiting an event, or settled at the server |
| `SigningLiveness.RestMeansAnswered` | pkg/infra/agentidentity/signercontroller/signercontroller.go:131-168 | Once a single replica has come to rest, no request that names the signer is pending |
| `SigningLiveness.SteadyStateAgreement` | pkg/infra/agentidentity/signercontroller/signercontroller.go:194-196 | When all replicas see each other live, exactly one considers a request its own |
| `SigningLiveness.OwnerIssues` | pkg/infra/agentidentity/signercontroller/signercontroller.go:194-209 | From any reachable state an up-to-date owner can issue the certificate, and its key is then neither queued nor backing off |
| `SigningLiveness.OwnerHearsAndIssues` | pkg/infra/agentidentity/signercontroller/signercontroller.go:82-209 | So can an owner that has not heard of the request yet, once its informer shows it |
| `SigningLiveness.ObservedIsCached` | pkg/infra/agentidentity/signercontroller/signercontroller.go:82-105 | An observed version is in the cache and is heard of, unless nothing was or is there |
| `SigningLiveness.SubmitOutcome` | pkg/infra/agentidentity/signercontroller/signercontroller.go:150-212 | A status write is stored unless it fails on the way or is out of date; it is retried exactly after an error |
| `SigningLiveness.OthersAreForgotten` | pkg/infra/agentidentity/signercontroller/signercontroller.go:146-192 | A request of another signer, or one that is answered or gone, is dropped without a write and without a retry |
| `Spiffe.SignerAndCompilerAgree` | pkg/infra/agentidentity/agenticidentitysigner/agenticidentitysigner.go:126-130 | The URI in the certificate, through path cleaning and URL escaping, equals the compiled principal if and only if the trust domain is not empty, which the signer is never started with |
| `Spiffe.PrincipalsAreInjective` | pkg/translator/accesspolicy.go:112-114 | No two accounts share a principal |
| `Identity.RuleAdmitsExactlyItsAccount` | pkg/translator/accesspolicy.go:128-138 | A ServiceAccount rule admits a certificate exactly if it was issued to that account, the namespace defaulting to the policy's |
| `AccessPolicies.RbacConfigFromAccessPolicy` | pkg/translator/accesspolicy.go:61-86 | The emitted configuration allows exactly the requests that the first policy targeting the backend allows, or all if none does |
| `AccessPolicies.TranslateAccessPolicy` | pkg/translator/accesspolicy.go:116-184 | Each name is bound to the last rule written under it, and that policy matches exactly what the rule allows; the same for the shadow rules and their prefix |
| `AccessPolicies.TranslateRule` | pkg/translator/accesspolicy.go:119-178 | The compiled policy matches exactly the requests the rule allows |
| `AccessPolicies.TranslateInlineTools` | pkg/translator/accesspolicy.go:208-253 | The permission holds exactly for calls of a listed tool; none for the empty list |
| `AccessPolicies.FindAccessPolicyForBackend` | pkg/translator/accesspolicy.go:90-108 | Finds the first policy of the backend's namespace that targets it, if there is one |
| `AccessPolicies.BuiltInPolicies` | pkg/translator/accesspolicy.go:256-381 | The three built-in policies match exactly the session traffic |
| `AccessPolicies.EveryRuleCounts` | pkg/translator/accesspolicy.go:116-184 | With unique unreserved names a request is allowed exactly if it is session traffic or some rule allows it |
| `AccessPolicies.AllowedInWords` | pkg/translator/accesspolicy.go:61-381 | With unique unreserved names, the emitted configuration allows a request exactly if its headers or MCP method make it session traffic, or it calls a tool that some rule covers and its peer carries the SPIFFE name of that rule's source, all fields and literals spelled out |
| `AccessPolicies.SourcesAdmit` | pkg/translator/accesspolicy.go:122-152 | A SPIFFE source admits exactly the peers with that name; sources that name nobody admit everybody |
| `AccessPolicies.SpiffeRuleDecides` | pkg/translator/accesspolicy.go:122-152 | A call of a tool of a rule with a SPIFFE source, which no other rule allows, passes the emitted configuration if and only if the peer has the name |
| `AccessPolicies.UnmatchedToolCallIsDenied` | pkg/translator/accesspolicy.go:74-83 | A POST tools/call that no rule allows is refused |
| `AccessPolicies.ReservedNamesAreLost` | pkg/translator/accesspolicy.go:81-83 | A rule under one of the three reserved names grants nothing: without it the policy allows the same requests |
| `ExtAuthz.BuildExtAuthzFilters` | pkg/translator/listener.go:424-530 | Exactly one filter per distinct configuration id, that of the first policy using it; none if its backend is unsupported |
| `ExtAuthz.BuildExtAuthzClusters` | pkg/translator/translator.go:561-619 | One cluster for every name that a configuration yields, each from such a configuration |
| `ExtAuthz.FilterClustersExist` | pkg/translator/listener.go:445-501 | Every cluster a filter sends its checks to is emitted |
| `ExtAuthz.CheckReachesItsService` | pkg/translator/translator.go:580-635 | The cluster of every filter leads to the service of a configuration with its id: name.namespace.svc.cluster.local, the namespace defaulting to the policy's, on its port or 5000 |
| `ExtAuthz.ClusterNameTellsEndpoint` | pkg/translator/translator.go:621-635 | Configurations share a cluster name only if they share host, protocol and port |
| `ExtAuthz.ConfiguredFilterHasService` | pkg/translator/listener.go:445-501 | A filter has a service to ask exactly for gRPC, and for HTTP with its HTTP part |
| `ExtAuthz.KeysAreInjective` | pkg/translator/listener.go:548-560 | Filters of different ids are enabled by different metadata keys |
| `HttpFilters.BuildHttpFilters` | pkg/translator/listener.go:359-390 | The chain is MCP, RBAC, one check per configuration, router |
| `HttpFilters.ChainOutcome` | pkg/translator/listener.go:380-390 | In that order a request is forwarded exactly if RBAC allows it as annotated and every check its metadata enables approves |
| `HttpFilters.ShadowMatchesTheGuard` | pkg/translator/accesspolicy.go:166-176 | The RBAC filter publishes the key of the policy's own configuration exactly for tool calls from the rule's source |
| `HttpFilters.OneFilterPerConfiguration` | pkg/translator/listener.go:432-451 | Deduplication leaves exactly one filter for a configuration, none if it is unsupported |
| `HttpFilters.GuardDecides` | pkg/translator/listener.go:548-569 | No filter but the one of the policy's own configuration has a say |
| `HttpFilters.ExternalAuthEndToEnd` | pkg/translator/listener.go:359-569 | A request is forwarded exactly if the policy allows it and, when the guarded rule covers it and its backend is supported, its own filter approves |
| `HttpFilters.FailsOpenIffUnsupported` | pkg/translator/listener.go:467-472 | A guarded call that the policy allows and all services refuse is forwarded if and only if the rule has an HTTP configuration whose backend kind is written and is not Service |
| `HttpFilters.ForwardedWasApproved` | pkg/translator/listener.go:467-472 | If the rule's protocol is not HTTP, or its HTTP part is absent, or its backend kind is absent or Service, a guarded call that the chain forwards was approved by the filter with that rule's key |
| `HttpFilters.XBackendCannotAuthorize` | pkg/translator/listener.go:467-472 | Such a configuration |
| `HttpFilters.NoGuardNoCheck` | pkg/translator/listener.go:548-569 | Without an external-auth rule the RBAC decision alone counts |
| `HttpFilters.OwnServiceIffSameNamespace` | pkg/translator/listener.go:651-658 | Checks go to the service a rule names if and only if it spells out the namespace or the first policy with that configuration shares it |
| `HttpFilters.SharedConfigurationIsMisrouted` | pkg/translator/listener.go:651-658 | Two policies in two namespaces whose checks go to one service |
| `Hostnames.GetIntersectingHostnames` | pkg/translator/routes.go:161-204 | The list holds the intersection's domains, as often as specified, in any order |
| `Hostnames.IsAllowedByHostname` | pkg/translator/routes.go:122-156 | True exactly when the intersection is not empty |
| `Hostnames.OpenListener` | pkg/translator/routes.go:161-177 | An empty listener hostname is the same as none: the route's own hostnames, or every host |
| `Hostnames.IntersectionIsExact` | pkg/translator/routes.go:161-247 | A host is served exactly if the listener admits it and the route admits it through a hostname that is not a strictly wider wildcard |
| `Hostnames.EveryDomainIsSound` | pkg/translator/routes.go:185-200 | Each domain stays within the listener and within one route hostname |
| `Hostnames.SpecifiedIffBacked` | pkg/translator/routes.go:208-247 | The served hosts are those of the Gateway API if and only if wider wildcards are backed by the listener's own hostname and "*.d" on listener d by a hostname admitting d |
| `Hostnames.WiderWildcardIsLost` | pkg/translator/routes.go:215-224 | "*.b" on listener "*.a.b" is refused although both admit "x.a.b" |
| `Hostnames.ParentDomainIsAccepted` | pkg/translator/routes.go:234-243 | "*.b" on listener "b" is accepted |
| `Listeners.ValidateListeners` | pkg/translator/listener.go:80-160 | The pass over ports in any order marks exactly the listeners in pairwise conflict, each with its reason |
| `Listeners.MarkClashes` | pkg/translator/listener.go:118-141 | On one port, exactly the web listeners that share a hostname with another are marked |
| `Listeners.ConflictIff` | pkg/translator/listener.go:80-160 | A listener is in protocol conflict if and only if TCP or UDP and HTTP, HTTPS or TLS meet on its port, and otherwise in hostname conflict if and only if another HTTP, HTTPS or TLS listener has its port and hostname, an empty hostname being none |
| `Listeners.ServerNamesAreDistinct` | pkg/translator/listener.go:180-186 | Encrypted listeners without conflict on a port have different server names |
| `FilterChains.BuildFilterChains` | pkg/translator/translator.go:290-355 | One chain per surviving listener, or the first listener's alone when that is plain HTTP; none if no listener survives |
| `FilterChains.HasChainIff` | pkg/translator/translator.go:347-354 | A programmed listener has its chain if and only if the port's first listener is not plain HTTP or it is plain HTTP itself |
| `FilterChains.ChainByProtocol` | pkg/translator/listener.go:166-186 | A chain of a port is that of one of its listeners: HTTP for HTTP and HTTPS, TCP for TCP and TLS, UDP for UDP, encrypted for HTTPS and TLS and then matched by the hostname |
| `FilterChains.TlsBehindHttpHasNoChain` | pkg/translator/translator.go:351-354 | An HTTPS listener that is programmed without a chain |
| `FilterChains.ChainsAreDistinct` | pkg/translator/listener.go:180-186 | On a port of HTTPS and TLS listeners the emitted chains have pairwise distinct server names |
| `Listeners.GatewayProgrammed` | pkg/controller/gateway.go:119-149 | True exactly when Envoy was updated and every listener is programmed |
| `Listeners.ValidKindsAllowRoutes` | pkg/translator/routes.go:91-118 | On a kind-valid listener only the namespace decides whether an HTTPRoute may attach |
| `RouteMatching.TranslateHTTPRouteMatch` | pkg/translator/httproute.go:346-433 | Fails exactly on a missing path value or an unknown type, and otherwise yields the translated match |
| `RouteMatching.RejectedInWords` | pkg/translator/httproute.go:349-409 | A match is rejected exactly if its path has no value, or the type of its path or of a header is not one of the known ones |
| `RouteMatching.ElementwisePrefix` | pkg/translator/httproute.go:363-369 | Prefix by path elements is Envoy's path-separated prefix, for all strings |
| `RouteMatching.PathsAgree` | pkg/translator/httproute.go:349-384 | Path matches mean the same in Envoy and the Gateway API for every request path |
| `RouteMatching.LowerHasNoCapitals` | pkg/translator/httproute.go:387-415 | Header names are compared without regard to case |
| `RouteMatching.TranslationIsExact` | pkg/translator/httproute.go:346-433 | What an emitted match demands: path, every header entry, every query literally, no method |
| `RouteMatching.NeverTooPermissive` | pkg/translator/httproute.go:386-429 | With repeated names too, what Envoy matches the Gateway API matches, method aside |
| `RouteMatching.AgreesButForMethod` | pkg/translator/httproute.go:346-433 | Without repeated names and typed queries both agree on every request, method aside |
| `RouteMatching.MethodIsIgnored` | pkg/translator/httproute.go:346-433 | A match for POST lets a GET through |
| `MatchAgreement.AgreesIffMethodIsIdle` | pkg/translator/httproute.go:346-433 | Without repeated names and typed queries, both sides agree on all requests if and only if there is no method or nothing satisfies the rest |
| `MatchAgreement.AgreesIffHarmless` | pkg/translator/httproute.go:386-429 | With literal values, they agree on all requests if and only if there is no method and entries for one name ask for one value |
| `MatchAgreement.RepeatedHeaderIsDemanded` | pkg/translator/httproute.go:387-415 | Two entries for one header, of which Envoy demands both |
| `MatchAgreement.AgreesIffPatternsMatchThemselves` | pkg/translator/httproute.go:418-429 | Typed queries do no harm if and only if every pattern matches itself and nothing else |
| `MatchAgreement.TypedQueryIsTakenLiterally` | pkg/translator/httproute.go:418-429 | A pattern that matches a value which Envoy refuses |
| `RouteMatching.BeforeIsStrictWeakOrder` | pkg/translator/httproute.go:459-504 | The comparison is irreflexive, asymmetric, transitive, and so is its incomparability |
| `RouteMatching.OrderInWords` | pkg/translator/httproute.go:459-542 | For any two translated matches, regular expressions included: the unconditional one last, then exact paths, longer paths (a regular expression without its sub-path ending and backslashes), more headers, more queries |
| `RouteMatching.OrderIsPrecedence` | pkg/translator/httproute.go:459-542 | On proper paths the comparison is the Gateway API's precedence (exact path, longer path, method, headers, queries) if and only if the paths decide, the matches agree about having a method, or the one with the method also outnumbers the other |
| `RouteMatching.OrderRespectsPrecedence` | pkg/translator/httproute.go:459-542 | What Envoy puts first is not preceded by a match without a method, nor by any if it has one |
| `RouteMatching.HeaderGoesBeforeMethod` | pkg/translator/httproute.go:488-493 | Two matches that both hold, of which Envoy tries the one first that the Gateway API puts last |
| `RouteOrder.SortRoutes` | pkg/translator/httproute.go:458-505 | In place: a sorted permutation |
| `RouteOrder.FirstMatchIsBest` | pkg/translator/httproute.go:458-505 | No matching route comes before the first match |
| `RouteTranslation.BuildHTTPRouteAction` | pkg/translator/httproute.go:267-317 | The first missing backend fails the action, weight 0 is fetched but not used, no weight at all is unsupported |
| `RouteTranslation.ResolvesUnlessMissing` | pkg/translator/httproute.go:274-312 | When resolution fails, which backends it returns, and when no cluster is left |
| `RouteTranslation.ClustersFollowTheReferences` | pkg/translator/httproute.go:274-307 | The weighted clusters are, in the order of the references and exactly for those whose weight is not 0, named after the reference's namespace and name, with the reference's own weight (1 if absent), the XBackend whose policy applies and the external host to rewrite to, if any |
| `RouteTranslation.FetchedIff` | pkg/translator/backend.go:66-138 | When a reference can be fetched and the reason otherwise, in terms of its group, kind, namespace and name, the grants and the stored Services and XBackends |
| `ReferenceGrants.AllowedIffGranted` | pkg/translator/referencegrant.go:29-64 | A reference across namespaces is allowed exactly if one grant of the backend's namespace names HTTPRoutes of the route's namespace and core Services |
| `GatewayTranslation.EndpointOfReference` | pkg/translator/backend.go:148-238 | Where a reference leads: a Service to its DNS name on the port of the reference, its first port or 80; an XBackend to its Service or external host on its own port |
| `RouteTranslation.ClustersAreBacked` | pkg/translator/httproute.go:279-307 | The weighted clusters are exactly those of the references with a weight |
| `RouteTranslation.TranslateHTTPRoute` | pkg/translator/httproute.go:44-145 | Routes, backends and condition are those of all matches of all rules in order, the last failure reported |
| `RouteTranslation.RouteHasOrigin` | pkg/translator/httproute.go:85-143 | Every emitted route stems from one match that was not rejected |
| `RouteTranslation.MatchIsEmitted` | pkg/translator/httproute.go:85-143 | Every match that was not rejected yields its route |
| `RouteTranslation.RouteIsOfARule` | pkg/translator/httproute.go:66-143 | Every emitted route is a match that a rule lists, or the unconditional one of a rule without matches, with the rule's redirect, clusters or error |
| `RouteTranslation.RuleHasItsRoutes` | pkg/translator/httproute.go:66-143 | And every such match that is not rejected is emitted so |
| `RouteTranslation.RouteNamesAreDistinct` | pkg/constants/envoynames.go:29-31 | Within an HTTPRoute the names of the Envoy routes tell the matches apart |
| `RouteTranslation.RoutesAreBacked` | pkg/translator/httproute.go:104-131 | Every cluster a route forwards to belongs to a reported backend |
| `RouteTranslation.ResolvedIffNoErrorRoute` | pkg/translator/httproute.go:85-134 | ResolvedRefs is True exactly when no match was rejected and no route is the error response |
| `RouteTranslation.ErrorRoutesExplained` | pkg/translator/httproute.go:110-119 | A route answers with an error exactly when its rule does not redirect and a backend is missing or none has a weight |
| `RouteTranslation.CollisionIffShift` | pkg/constants/envoynames.go:34-35 | Two pairs of namespace and name print to one cluster name if and only if they are equal or a dash-separated piece can change sides |
| `ClusterOwnership.ClashIff` | pkg/translator/backend.go:164-238 | Two backends need different clusters under one name if and only if their names collide and host or port differ |
| `ClusterOwnership.ServicesClashIff` | pkg/translator/backend.go:227-238 | Two Service backends clash if and only if they are one Service with two ports or a piece of their names shifts |
| `ClusterOwnership.ServiceAndXBackendClashIff` | pkg/translator/backend.go:164-238 | A Service and an XBackend clash if and only if they share a key and lead to different services or ports, or a piece of their names shifts |
| `RouteTranslation.NamesCollide` | pkg/constants/envoynames.go:34-35 | Two backends that do |
| `Attachment.ValidateHTTPRoute` | pkg/translator/translator.go:438-531 | One right status per reference to the Gateway, in order, and exactly the listeners that accept the route |
| `Attachment.ValidateRef` | pkg/translator/translator.go:466-486 | The listeners that accept one reference, or the last obstacle met |
| `Attachment.AcceptsIff` | pkg/translator/routes.go:33-118 | A listener accepts a route exactly if a parent reference has the Gateway's name and namespace (defaulting to the route's) and, where given, the listener's section and port, the allowed namespaces (Same unless written) include the route's, the kinds are absent or include HTTPRoutes, and the hostnames intersect |
| `Attachment.AcceptedNamespaces` | pkg/translator/routes.go:46-85 | An accepted route has the Gateway's namespace if allowedRoutes, namespaces or from is absent or from is Same; None accepts nothing, Selector only what it matches |
| `Attachment.RejectionExplained` | pkg/translator/translator.go:466-500 | A reference that no listener accepts names no listener, or is turned down for what the last listener it names objects to |
| `Attachment.GroupRoutes` | pkg/translator/translator.go:139-161 | For each listener exactly the routes it accepts, in order |
| `VirtualHosts.AddRoutes` | pkg/translator/translator.go:263-281 | Each domain gains the routes as often as it is listed |
| `VirtualHosts.SortHosts` | pkg/translator/translator.go:324-328 | The same virtual hosts, distinct domains, routes sorted |
| `GatewayTranslation.BuildEnvoyResources` | pkg/translator/translator.go:128-377 | Per port exactly the virtual hosts called for (distinct domains, sorted routes, per domain the multiset of the accepted routes' translations) and exactly the filter chains; the clusters of the authorization services, overwritten by those of the attached routes' backends, port after port in some order; statuses as treated |
| `GatewayTranslation.TranslatePort` | pkg/translator/translator.go:181-356 | The same for one port: hosts, chains, statuses, and the clusters overwritten in the order of listeners, routes and references |
| `GatewayTranslation.StatusInWords` | pkg/translator/translator.go:189-321 | A listener is accepted and programmed exactly if all its kinds are HTTPRoutes of the Gateway API and it has no conflict; an HTTP or HTTPS listener then counts the accepted routes that have a translatable match |
| `GatewayTranslation.AttachRoute` | pkg/translator/translator.go:237-283 | One accepted route adds its share to each domain, overwrites the clusters of its backends, and counts unless it has no Envoy route |
| `GatewayTranslation.AddClusters` | pkg/translator/backend.go:209-238 | The backends' clusters in order, of two under one name the later |
| `ClusterOwnership.SnapshotIsClosed` | pkg/translator/translator.go:250-256 | Every weighted cluster of an emitted route and every authorization service's cluster exists |
| `ClusterOwnership.WrittenIffAttached` | pkg/translator/translator.go:237-256 | Clusters are written for exactly the backends of attached routes |
| `ClusterOwnership.ClusterIsSource` | pkg/translator/translator.go:168-256 | Every cluster stands under its own name and is that of an authorization service or of an attached route's backend |
| `GatewayRouting.AttachedMembers` | pkg/translator/translator.go:181-336 | A domain's routes are those of the HTTPRoutes accepted by a served listener of the port whose intersection holds the domain |
| `GatewayRouting.AnswerIsBestMatch` | pkg/translator/httproute.go:346-542 | Within a virtual host, the route that answers stems from an attached match that holds under the Gateway API, and no attached match that holds precedes it, except one with a method where it has none |
| `HostSelection.AnswerIsBest` | pkg/translator/translator.go:258-336 | Hostname first: the route that answers is attached at the most specific domain that competes for the host, and is best there in the same sense |
| `HostSelection.AnsweredIffTopMatches` | pkg/translator/translator.go:258-336 | A request is answered if and only if a match attached at the most specific competing domain lets it through |
| `HostSelection.SelectionExists` | pkg/translator/translator.go:263-272 | Distinct domains leave a virtual host for every host that some domain admits |
| `HostSelection.SelectionIsUnique` | pkg/translator/translator.go:263-272 | And only one |
| `GatewayRouting.MatchingRequestIsAnswered` | pkg/translator/translator.go:258-336 | A request for which an attached match holds is answered |
| `GatewayRouting.HostIsServedIffOffered` | pkg/translator/translator.go:258-281 | A host finds a virtual host exactly if a served listener and an accepted route with something to offer both admit it |
| `ClusterOwnership.EmittedIsUse` | pkg/translator/httproute.go:279-307 | Every weighted cluster of an emitted route is the use of a resolved, weighted reference of an attached HTTPRoute |
| `ClusterOwnership.AllOwnIffUnambiguous` | pkg/translator/translator.go:250-256 | Every authorization service and every backend of an attached route is what its cluster name stands for if and only if no two of them share a name and differ |
| `ClusterOwnership.ReachOwnIffLastAgrees` | pkg/translator/translator.go:250-256 | All emitted weighted clusters reach their own backends if and only if, under every name in use, the last backend written, of weight 0 or not, needs the same cluster |
| `ClusterOwnership.CheckIsOwnIff` | pkg/translator/translator.go:168-256 | An authorization service keeps its cluster if and only if no backend, or only one that needs the same, took its name |
| `PolicyEnforcement.BuildPerClusterConfig` | pkg/translator/httproute.go:300-342 | The settings of an XBackend's cluster are those of a policy that targets it, if there is one; other clusters have none |
| `PolicyEnforcement.ForwardedWasAllowed` | pkg/translator/httproute.go:288-307 | A request forwarded to the weighted cluster of an XBackend was allowed by a policy that targets this XBackend, unless none does |
| `PolicyEnforcement.BypassIff` | pkg/translator/backend.go:63-64 | Some emitted route reaches an XBackend's endpoint without its settings if and only if an attached route has a weighted reference, not to the XBackend itself, under whose name the backend written last has that endpoint |
| `PolicyEnforcement.DirectReferenceLeadsAround` | pkg/translator/backend.go:63-64 | A reference to the Service behind the XBackend does |
| `ClusterOwnership.ClashMisroutes` | pkg/translator/translator.go:254-256 | Two weighted references of attached routes that clash: an emitted route forwards to a cluster that is not its backend's |
| `ClusterOwnership.TwoPortsOneCluster` | pkg/translator/backend.go:140-146 | A rule that splits between two ports of a Service: whatever is emitted, one share goes to a cluster that is not its own |
| `GatewayRouting.ProgrammedMeansNoConflict` | pkg/translator/translator.go:189-321 | All listeners programmed exactly when all kinds are valid and none is in conflict |
| `ServiceEvents.EnqueueGatewaysForHTTPRoute` | pkg/controller/httproute.go:82-100 | Enqueues exactly the Gateways among the parents |
| `ServiceEvents.GatewayKeysIff` | pkg/controller/httproute.go:84-95 | A key is enqueued exactly if a parent reference with absent or Gateway group and kind has that namespace, defaulting to the route's, and name |
| `ServiceEvents.HTTPRouteServiceRefIndexFunc` | pkg/controller/service.go:41-60 | The keys of exactly the references that are no XBackend |
| `ServiceEvents.RouteIndexer.Put` | pkg/controller/service.go:41-60 | Adds and updates keep every route in exactly the buckets of its keys |
| `ServiceEvents.RouteIndexer.Delete` | pkg/controller/service.go:41-60 | So do deletions |
| `ServiceEvents.EnqueueByIndex` | pkg/controller/service.go:120-144 | The indexed path wakes exactly the Gateways of routes that name the Service and may |
| `ServiceEvents.EnqueueByList` | pkg/controller/service.go:148-181 | The scan wakes the same |
| `ServiceCoverage.EnqueueGatewaysForBackend` | pkg/controller/backend.go:148-200 | Wakes exactly the Gateways of routes that reach the XBackend |
| `ServiceCoverage.EnqueueViaXBackends` | pkg/controller/service.go:184-202 | Wakes the Gateways behind every XBackend the Service serves |
| `ServiceCoverage.EnqueueGatewaysForService` | pkg/controller/service.go:107-115 | Wakes both kinds and no others |
| `ServiceCoverage.WokenIff` | pkg/controller/service.go:107-202 | A Service wakes exactly the Gateways named as parents by a route that refers to it other than as an XBackend and may, or that refers to an XBackend of its namespace which names it |
| `ServiceCoverage.OnServiceEvent` | pkg/controller/service.go:71-105 | Additions and removals wake what the Service reaches; updates only with new addresses or annotations or under deletion |
| `ServiceCoverage.AffectedGatewaysAreWokenIffHeard` | pkg/controller/service.go:71-202 | When a Service event changes a stored route's translation, every Gateway the route names is woken if and only if the event is an addition or removal, or an update with new addresses or annotations, or under deletion |
| `ServiceCoverage.PortChangeIsNotHeard` | pkg/controller/service.go:77-87 | A port change that alters a translation and is not heard |
| `ServiceCoverage.CoveredIffProper` | pkg/controller/backend.go:203-206 | A reference concerns every Service that changes what it resolves to if and only if controller and translator classify it alike |
| `ServiceCoverage.ImproperRefIsMissed` | pkg/controller/backend.go:203-206 | For every other reference a route and a Service whose coming changes the translation while no Gateway is woken |
| `XdsVersions.VersionsIncrease` | pkg/infra/xds/server.go:114-127 | In every interleaving the versions installed for a node that one Gateway has alone strictly increase |
| `XdsVersions.IncreaseIffDistinctNodes` | pkg/infra/xds/server.go:114-127 | The versions of every node increase in all runs if and only if no two Gateways share a node |
| `XdsVersions.SharedNodeFallsBack` | pkg/infra/xds/server.go:114-127 | Two Gateways of one node whose version falls from 2 to 1 |
| `XdsVersions.OverlappingUpdatesShareAVersion` | pkg/infra/xds/server.go:115-116 | Two overlapping updates of different nodes can get one version |
| `XdsVersions.SameVersionIffNoAddBetween` | pkg/infra/xds/server.go:115-116 | Two updates read the same version if and only if no increment lies between their reads |
| `XdsVersions.LoadedIsRead` | pkg/infra/xds/server.go:115-116 | What an update reads is what it goes on to install |
| `XdsVersions.LaterUpdatesGetLaterVersions` | pkg/infra/xds/server.go:115-116 | What an update installs is above everything read before it began |

## Left out

- FinalizerSafety.NoOrphanProxy: assumes one controller process at a time and that only this controller removes its finalizer.
- FinalizerWakeups.NoLostWakeup: whether a Gateway is this controller's changes only with a new generation of the Gateway; the code asks the GatewayClass lister each time, so a GatewayClass that comes or goes can change the answer without one.
- FinalizerWakeups.NoLostWakeup: events of GatewayClasses, for which there is no retry queue, enter only as arbitrary additions to the queue.
- FinalizerProgress.ProxyIsBuilt: waiting for readiness of Deployment and Service is part of the step that may fail.
- Rendezvous.AssignedToThisReplica: a lease without a renew time, on which the code fails, has none here; times are whole seconds.
- SigningSafety.AtMostOneIssuance: relies on the API server rejecting stale resourceVersions and on other clients leaving answered requests alone.
- HttpFilters.ExternalAuthEndToEnd: assumes that the hashes of the configurations in use tell them apart; header lists, body forwarding and timeouts of the filters are not modelled.
- AccessPolicies.TranslateRule: a compiled policy without permissions is taken to match nothing, as Envoy evaluates an empty list.
- RouteMatching.AgreesButForMethod: regular expressions are an arbitrary predicate shared by both sides.
- RouteMatching.OrderIsPrecedence: precedence by age and name, which the code does not implement, and the order among regular expressions are not compared.
- RouteOrder.SortRoutes: an insertion sort stands for the library's sort; only what any sort promises is stated.
- GatewayTranslation.BuildEnvoyResources: failures to marshal a filter chain, and with them Programmed=False for that reason, do not occur; the order of the ports, that of a Go map, is any; the ResolvedRefs condition is stated per route and not merged into parent statuses.
- RouteTranslation.TranslateHTTPRoute: of the filters only the presence of a redirect matters; rewrites and header changes are copied by the code.
- ServiceCoverage.AffectedGatewaysAreWokenIffHeard: ReferenceGrant changes, for which there is no handler, are not events of the model.
- XdsVersions.VersionsIncrease: the counter does not wrap around.
- ensureLease is present only as the renewal step of a replica.
- x509, PEM and key handling, gRPC serving, YAML rendering, TLS contexts, local replies, TCP and UDP chains: foreign code or field-by-field copying.
- GRPCRoutes, which the translator does not support yet.
- Label selectors are an arbitrary function of selector and namespace.
