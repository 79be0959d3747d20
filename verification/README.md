# Verified model of the Kubernetes landscape orchestrator

A Dafny model of the parts of the orchestrator that carry its guarantees, with proofs over every input, every map
iteration order and every run. `dafny verify dfyconfig.toml` checks the whole project.

- **Stage routes.** An ActivationTaskExecution compiles its vector's deployment results into the rules of its stage's
  HTTPRoute, provisions the konfidence-router Gateway where asked to, and publishes the route; a second controller takes
  the route down with its Stage. Modules `RouteRules` (the compiler), `Routing` (what the rules mean to a request),
  `RouterGateway`, `StageRoutes` (both Reconciles as step functions), `StageRouteControllers` (the controllers, call by
  call), `StageRouteEffects`, `StageRouteRuns`, `StageRouteSupersession`, `StageRouteStability`, `BoundedWaiting`,
  `StageRouteOutcomes` and `StageRouteEndings` (theorems over runs, and how every Reconcile ends).
- **Deployment results.** ArtifactDeployments publish the Services Flux has rolled out; the router consumes them.
  Modules `DeploymentResults` (the wire format), `ArtifactDeployments` (the controllers), `ArtifactDeploymentRounds` (what a round does), `ArtifactDeploymentRuns`
  (theorems over runs and the producer/consumer contract) and `ArtifactDeploymentLimits` (what is not promised).
- **Vector data.** A VectorData is rendered into a ConfigMap, guarded by a finalizer, read back by the vector-data
  service, cached, invalidated by an informer and served as feature flags. Modules `VectorDataFormat`, `VectorDataLoad`,
  `VectorDataLifetime`, `VectorDataController`, `VectorDataCache`, `VectorDataSystem` (all of it running together) and
  `FlagEvaluation`.
- **Names.** Sanitised names, Kustomization suffixes and Job names (`Names`).

`Strings`, `Bags`, `Grouped` and `Conditions` hold the shared vocabulary.

## How the system is modelled

- A controller is a state machine whose step is one Reconcile. Each API call in it may be *rejected* (no effect, error)
  or *lost* (effect, error), so the order of the calls matters to every invariant. The environment (users, the API
  server, Flux, the Gateway implementation) moves between steps and may do anything its stated contract allows.
- Go's map iteration and `sort.Slice`, which is not stable, are nondeterministic: compiling and loading are relations
  (`MayCompile`, `MayParse`, `MayLoad`), and the methods that loop over a map are proved for every order.
- JSON text is the JSON value it encodes, or not JSON at all (`Raw`). Clocks, API failures, the decoding of strings as
  JSON and the response hash are parameters. Times are whole seconds.
- The imperative code is modelled as classes and methods with loops; each method is proved against a step function or a
  predicate, and the theorems are about those.

## Where the code and what is said about it differ

- `SanitizeK8sResourceName` is documented to make any string a valid name. It does so exactly when the name has a letter
  or digit and the cut at 63 characters does not fall on a dash (`Names.SanitizeValid`; `Names.SanitizeInvalid` gives
  names for which it does).
- Services are selected by the sanitised deployment name while Flux labels them with the raw one; the two agree exactly
  for names without dots of at most 63 characters (`Names.SelectorMatches`). The selector of `a.b` is the label of `a-b`
  (`Names.SelectorMisses`), and `Names.SelectorsApart` says exactly which deployments select another's Services.
- `boundedJobName` trims dashes only, so an object name whose cut falls right behind a dot gives an invalid Job name
  (`Names.BoundedJobNameIsSubdomain`, `Names.BoundedJobNameInvalid`).
- `buildRouteRules` is documented to build one rule per `http-k8s-service` result; that holds exactly when each of them
  selects a port (`RouteRules.RuleCount`, `ArtifactDeploymentLimits.UnexposedHasNoRule`).
- The rules are a function of the deployment exactly when equally named targets are equal
  (`RouteRules.CanonicalCompilation`); result names are unique within a component only, so reachable deployments can
  clash (`ArtifactDeploymentLimits.NamesMayClash`).
- Failing an execution does not take its Succeeded condition back (`StageRouteOutcomes.TerminalConditions`,
  `StageRouteOutcomes.SucceededThenFailed`).
- Ready does not follow the app's health once granted (`ArtifactDeploymentRuns.ReadyWasGranted`,
  `ArtifactDeploymentLimits.ReadyThoughUnhealthy`).
- A Stage that is deleted and created again has no active version at first, and executions for old versions are current
  again (`StageRouteSupersession.RecreationReverts`).
- A VectorData without features renders them as `null`, on which every flag lookup is an internal error, not
  FLAG_NOT_FOUND (`FlagEvaluation.SpecFeatures`).
- A configuration that is loaded before its ConfigMap is deleted and stored after the event has arrived stays in the
  cache (`VectorDataCache.StaleFill`, `VectorDataSystem.StaleAnswer`); `VectorDataCache.CacheAgrees` says exactly which
  runs avoid that.
- No lock spans the binding of a Stage and the route write; a cleanup in between leaves an orphan
  (`StageRouteRuns.WriteNeedsGuard`, `StageRouteRuns.OrphanRace`).

## Model

| member | source | states |
|---|---|---|
| `RouteRules.SelectPort` | internal/activationexecution/internal/controller/activation_task_execution_controller.go:320-326 | the selection loop returns the first port of the name, and nothing exactly when no port has it |
| `RouteRules.SelectTarget` | internal/activationexecution/internal/controller/activation_task_execution_controller.go:309-334 | one result is a breach exactly when it is of the Service type and its spec does not decode or its first port of the exposed name is missing or not TCP, and a target exactly when that port exists |
| `RouteRules.SelectMeans` | internal/activationexecution/internal/controller/activation_task_execution_controller.go:309-334 | the same of the value-level reading: results of other types and without an exposed port pass and route nowhere; a target is the result name, the Service and the number of that first port |
| `RouteRules.CollectTargets` | internal/activationexecution/internal/controller/activation_task_execution_controller.go:306-335 | for every map order the loops collect exactly the targets of all results in that order, or stop at a breach |
| `RouteRules.BuildRouteRules` | internal/activationexecution/internal/controller/activation_task_execution_controller.go:300-370 | whatever the iteration order and the unstable sort do, the result is one of the compilations the relation allows |
| `RouteRules.RulesMean` | internal/activationexecution/internal/controller/activation_task_execution_controller.go:306-369 | every rule of a compilation stems from a result that routes somewhere, and every such result has its rule |
| `RouteRules.CompileVerdict` | internal/activationexecution/internal/controller/activation_task_execution_controller.go:306-335 | compilation fails for some order if and only if it fails for all, and succeeds exactly when every result keeps the selected-port contract, told by type, spec and ports |
| `RouteRules.CanonicalCompilation` | internal/activationexecution/internal/controller/activation_task_execution_controller.go:306-369 | all orders and sorts give the identical rule sequence if and only if equally named targets are equal |
| `RouteRules.AmbiguousCompilesTwice` | internal/activationexecution/internal/controller/activation_task_execution_controller.go:337-370 | an ambiguous deployment has two different compilations |
| `RouteRules.DistinctNamesAscend` | internal/activationexecution/internal/controller/activation_task_execution_controller.go:337-370 | with distinct routable names the rules ascend strictly by service name |
| `RouteRules.RuleCount` | internal/activationexecution/internal/controller/activation_task_execution_controller.go:295-320 | there are at most as many rules as results of the Service type, and as many if and only if each of them selects a port |
| `Routing.StageRouteNameInjective` | internal/activationexecution/internal/controller/activation_task_execution_controller.go:429-431 | two stages never share a route name |
| `Routing.ForwardedFields` | internal/activationexecution/internal/controller/activation_task_execution_controller.go:339-369 | the forwarded request carries the routing key whatever the client sent, no stage or service field, and every other field unchanged |
| `Routing.RoutingMeaning` | internal/activationexecution/internal/controller/activation_task_execution_controller.go:339-369 | serving a request over all stage routes of a Gateway, whether they spell out its namespace or leave it unset, is looking up (stage, service) in the table, in both directions, and never another stage's route |
| `Routing.ServedOnce` | internal/activationexecution/internal/controller/activation_task_execution_controller.go:339-369 | at most one route and one rule in it serve a request |
| `RouterGateway.Evaluate` | internal/activationexecution/internal/controller/router_gateway.go:131-157 | ready exactly when not rejected and cluster-routable; exposed exactly when routability was not kept or a reachable address is not restricted; pending only within the timeout; failed without exposure only when rejected or late |
| `StageRouteEndings.SafeMeans` | internal/activationexecution/internal/controller/router_gateway.go:186-207 | a Gateway is safe if and only if it is not the operator's, or is not rejected and has requested and assigned addresses, all limited to the cluster |
| `StageRouteEndings.NewGatewayMeans` | internal/activationexecution/internal/controller/router_gateway.go:167-184 | a new Gateway has the class it was asked for, the operator's label and the cluster request if the CRDs keep it |
| `StageRoutes.ParseConfig` | internal/activationexecution/internal/controller/activation_task_execution_controller.go:372-385 | a parsed configuration names a Gateway, and provisions only the default one in its own namespace with a class |
| `StageRouteEndings.ConfigMeans` | internal/activationexecution/internal/controller/activation_task_execution_controller.go:372-385 | which configurations parse, which Gateway and namespace they name and when they provision, told by the JSON fields, in both directions |
| `StageRouteEndings.WrittenParent` | internal/activationexecution/internal/controller/activation_task_execution_controller.go:259-293 | a written route hangs on the Gateway and namespace its configuration names and has the compiled rules |
| `StageRouteControllers.Landscape.IsSuperseded` | internal/activationexecution/internal/controller/activation_task_execution_controller.go:208-241 | the lookup sequence gives the verdict of the step function, failures included |
| `StageRouteControllers.Landscape.EnsureStageFinalizer` | internal/activationexecution/internal/controller/activation_task_execution_controller.go:243-257 | the finalizer step, with its effect when the patch is rejected or lost |
| `StageRouteControllers.Landscape.EnsureRouterGateway` | internal/activationexecution/internal/controller/router_gateway.go:69-92 | finding, evaluating and removing the Gateway is the gate of the step function |
| `StageRouteControllers.Landscape.CreateRouterGateway` | internal/activationexecution/internal/controller/router_gateway.go:94-120 | class lookup, creation, a concurrent creator and the removal of a Gateway that lost its routability |
| `StageRouteControllers.Landscape.ApplyStageRoute` | internal/activationexecution/internal/controller/activation_task_execution_controller.go:259-293 | the route of exactly this stage is replaced by these rules under this Gateway |
| `StageRouteControllers.Landscape.ReconcileActivationTaskExecution` | internal/activationexecution/internal/controller/activation_task_execution_controller.go:109-203 | the call sequence performs the step function on cluster, conditions and outcome |
| `StageRouteControllers.Landscape.Reconcile` | internal/activationexecution/internal/controller/activation_task_execution_controller.go:80-107 | the core followed by a status patch only when the status changed |
| `StageRouteControllers.Landscape.CleanUpStage` | internal/activationexecution/internal/controller/stage_route_cleanup_controller.go:30-67 | the route is deleted before the finalizer goes, and the Stage disappears with its last finalizer |
| `StageRouteEffects.EnsureGatewayEffect` | internal/activationexecution/internal/controller/router_gateway.go:69-120 | ready leaves the cluster alone and means safe to attach; an admin's Gateway is never touched; pending has a deadline; removing fails |
| `StageRouteEffects.ReconciledEffect` | internal/activationexecution/internal/controller/activation_task_execution_controller.go:80-203 | everything a Reconcile may write: its own status, this stage's finalizer and route, a provisioned Gateway, and under which guards |
| `StageRouteRuns.NoOrphanRoutes` | internal/activationexecution/internal/controller/stage_route_cleanup_controller.go:30-67 | in every reachable state a route belongs to an existing Stage with the cleanup finalizer, whatever calls failed, and has its writer in the run |
| `StageRouteRuns.RouteWriter` | internal/activationexecution/internal/controller/activation_task_execution_controller.go:119-196 | that writer: an earlier Reconcile, not superseded, of an execution whose activation named this stage, and the rules compile from the deployment stored under the name it gave; the route has not changed since |
| `StageRouteRuns.OrphanRace` | internal/activationexecution/internal/controller/activation_task_execution_controller.go:172-196 | finalizer check, a whole cleanup and the route write, in this order, leave a route without a Stage |
| `StageRouteRuns.WriteNeedsGuard` | internal/activationexecution/internal/controller/activation_task_execution_controller.go:172-196 | a route write keeps that invariant if and only if the Stage is guarded at the moment of the write |
| `StageRouteRuns.CleanUpInBetween` | internal/activationexecution/internal/controller/stage_route_cleanup_controller.go:38-50 | a cleanup can remove a Stage that a Reconcile has just found guarded |
| `StageRouteRuns.StatusMachine` | internal/activationexecution/internal/controller/activation_task_execution_controller.go:390-426 | Failed and InProgress never both True; every error-free Reconcile ends requeued and in progress, failed, or succeeded; a requeue exactly when in progress |
| `StageRouteRuns.FailedIsAbsorbing` | internal/activationexecution/internal/controller/activation_task_execution_controller.go:114-117 | a failed execution never changes again and its Reconciles change nothing at all |
| `StageRouteOutcomes.GatewayFailsExactly` | internal/activationexecution/internal/controller/router_gateway.go:69-157 | the Gateway step fails if and only if a provisioned Gateway is late, rejected, or exposed and deleted, or the class is missing past the deadline, or a created Gateway lost its routability and was deleted |
| `StageRouteOutcomes.FailsExactly` | internal/activationexecution/internal/controller/activation_task_execution_controller.go:109-196 | a Reconcile fails its execution if and only if every lookup succeeds, it is current, provisions and has rules, its Stage can be bound, the Gateway step fails and the status patch takes, all told before the call |
| `StageRouteOutcomes.SucceedsExactly` | internal/activationexecution/internal/controller/activation_task_execution_controller.go:109-203 | with no failing call, a current execution with rules ends with its route in place and succeeded if and only if its Stage can be bound and a provisioning one finds a safe Gateway |
| `StageRouteEndings.Stops` | internal/activationexecution/internal/controller/activation_task_execution_controller.go:119-154 | a failing lookup, an unreadable configuration or a deployment that does not compile is an error and changes nothing |
| `StageRouteEndings.NothingToDo` | internal/activationexecution/internal/controller/activation_task_execution_controller.go:84-117 | an execution that is gone or has failed needs nothing |
| `StageRouteEndings.SupersededSucceeds` | internal/activationexecution/internal/controller/activation_task_execution_controller.go:127-136 | a superseded execution is marked succeeded and does nothing else |
| `StageRouteEndings.DropsExactly` | internal/activationexecution/internal/controller/activation_task_execution_controller.go:155-170 | an empty compilation deletes exactly the stage's route and then succeeds; a failing delete is an error and leaves the status alone |
| `StageRouteEndings.WritesExactly` | internal/activationexecution/internal/controller/activation_task_execution_controller.go:172-202 | with the way open the route is written and the execution succeeds; a failing write is an error and leaves the status alone |
| `StageRouteEndings.GatewayEnds` | internal/activationexecution/internal/controller/router_gateway.go:69-157 | when the Gateway step waits, in closed form, the reason it gives for waiting or failing, and the Gateway it leaves behind |
| `StageRouteEndings.HeldExactly` | internal/activationexecution/internal/controller/activation_task_execution_controller.go:183-191 | held up by its Gateway an execution carries that reason, in progress and polled again or failed, and no route is written |
| `StageRouteEndings.StuckExactly` | internal/activationexecution/internal/controller/activation_task_execution_controller.go:172-196 | a Stage that cannot be bound or a failing Gateway call is an error, without route and status |
| `StageRouteOutcomes.CleansUp` | internal/activationexecution/internal/controller/stage_route_cleanup_controller.go:30-67 | with no failing call, the cleanup of a deleted Stage removes exactly its route and the cleanup finalizer; the Stage stays while others are left |
| `StageRouteEndings.CleanUpEnds` | internal/activationexecution/internal/controller/stage_route_cleanup_controller.go:30-67 | the cleanup with every failing call: only a deleted Stage with the finalizer is touched, and a failing delete leaves the finalizer |
| `StageRouteOutcomes.TerminalConditions` | internal/activationexecution/internal/controller/activation_task_execution_controller.go:390-426 | an execution comes to be both Succeeded and Failed if and only if a Reconcile that will fail, told before the call, meets one that has succeeded |
| `StageRouteOutcomes.SucceededThenFailed` | internal/activationexecution/internal/controller/activation_task_execution_controller.go:403-426 | a run to both, for every deployment that compiles to a route: success on a safe Gateway, its rejection, a second Reconcile |
| `StageRouteSupersession.SupersededExactly` | internal/activationexecution/internal/controller/activation_task_execution_controller.go:208-241 | on error-free lookups superseded if and only if the Stage is gone, or another version is active and either the own version is gone or the active one is strictly newer |
| `StageRouteSupersession.LookupFailsExactly` | internal/activationexecution/internal/controller/activation_task_execution_controller.go:211-239 | a failing lookup is an error if and only if the verdict depended on it |
| `StageRouteSupersession.StaysActive` | internal/activationexecution/internal/controller/activation_task_execution_controller.go:205-241 | by induction over runs of both controllers and an environment that keeps StageVersions and moves the active one forward step by step: the active version is never older than one that was active before |
| `StageRouteSupersession.SupersessionSafety` | internal/activationexecution/internal/controller/activation_task_execution_controller.go:127-136 | once a version is active, no later Reconcile for a strictly older one changes any route, Stage or Gateway, for as long as the Stage is not re-created |
| `StageRouteSupersession.RecreationReverts` | internal/activationexecution/internal/controller/activation_task_execution_controller.go:220-223 | that condition is needed: after a Stage is deleted and created again, an execution for the older version writes its route |
| `StageRouteRuns.GatewayGate` | internal/activationexecution/internal/controller/activation_task_execution_controller.go:183-196 | provisioning executions write routes only onto safe Gateways, and report a route applied, be it written or found equal, only then; creating or deleting a Gateway writes no route; only provisioning executions do so and never to an unlabelled one |
| `StageRouteStability.ReachablePublishes` | internal/activationexecution/internal/controller/activation_task_execution_controller.go:259-293 | in every reachable state the routes on a Gateway are the table of deployments that Reconciles of the run activated, which is what the routing meaning builds on |
| `StageRouteStability.ReachableRouting` | internal/activationexecution/internal/controller/activation_task_execution_controller.go:259-293 | in every reachable state a served request asked for that stage and is forwarded to the port of a result of the deployment that a named earlier Reconcile of the run activated for it, with that deployment's name as routing key |
| `StageRouteStability.ApplyStabilises` | internal/activationexecution/internal/controller/activation_task_execution_controller.go:172-202 | a successful activation of the active version puts exactly its route in place |
| `StageRouteStability.RestartStability` | internal/activationexecution/internal/controller/activation_task_execution_controller.go:127-202 | afterwards any mix of re-reconciles in any order, cleanups, Gateway changes and failing calls leaves exactly that route |
| `StageRouteStability.RestartServes` | internal/activationexecution/internal/controller/activation_task_execution_controller.go:127-202 | and through all of them requests for the stage are looked up in the deployment of the active version, each row served by its rule and nothing else served |
| `BoundedWaiting.WaitsAtMost42` | internal/activationexecution/internal/controller/router_gateway.go:94-157 | an execution polled every 15 s reports pending at most 42 times |
| `BoundedWaiting.WaitsAll42` | internal/activationexecution/internal/controller/router_gateway.go:18-21 | the bound is reached, by every deployment that compiles to a route |
| `DeploymentResults.ServiceSpecRoundTrip` | pkg/deploymentresult/service_spec.go:15-24 | what the deployer encodes the router decodes, with every field of a Service port and zero values included |
| `DeploymentResults.NullIsAbsent` | pkg/deploymentresult/service_spec.go:15-24 | a null field reads like an absent one, in a spec and in its ports |
| `ArtifactDeployments.ValidateExposePorts` | internal/fluxdeployer/internal/controller/deployment_result_status_updater.go:136-173 | the first failure in list order, and none exactly when every opted-in Service's exposed port exists and is TCP |
| `ArtifactDeploymentRounds.ExposureMeans` | internal/fluxdeployer/internal/controller/deployment_result_status_updater.go:136-173 | not found if and only if no port has the exposed name, unsupported if and only if the first one that has it is not TCP |
| `ArtifactDeployments.MapServicesToDeploymentResults` | internal/fluxdeployer/internal/controller/deployment_result_status_updater.go:178-213 | the opted-in Services' results in order, or an error exactly when two share a name |
| `ArtifactDeploymentRounds.ResultCarries` | internal/fluxdeployer/internal/controller/deployment_result_status_updater.go:196-210 | a published result has the annotated name, the Service type and a spec that decodes to the Service's own data |
| `ArtifactDeployments.Deployment.MapStatusConditions` | internal/fluxdeployer/internal/fluxcd/reconciler/helm_release.go:129-183 | the mapping loop equals folding the Flux conditions in order |
| `ArtifactDeployments.Deployment.SetExposureValidationFailure` | internal/fluxdeployer/internal/controller/deployment_result_status_updater.go:62-88 | results emptied, Created and Ready False, Stalled True, all with the reason |
| `ArtifactDeployments.Deployment.MutateResults` | internal/fluxdeployer/internal/controller/deployment_result_status_updater.go:26-60 | publication, its two refusals and its three early exits |
| `ArtifactDeployments.Deployment.MutateReady` | internal/fluxdeployer/internal/controller/ready_condition_status_updater.go:15-31 | Ready is set exactly when healthy, created and not stalled |
| `ArtifactDeployments.Deployment.Reconcile` | internal/fluxdeployer/internal/controller/kustomize_artifactdeployment_controller.go:71-137 | match counting, Flux cascade, publication and readiness in that order; multiple matches are refused |
| `ArtifactDeploymentRounds.RoundFollowsFlux` | internal/fluxdeployer/internal/fluxcd/reconciler/helm_release.go:49-183 | after a round of either controller the fetched, deployed and healthy conditions carry status and reason of the last Flux condition that decides them, and are left alone when there is none or the round stops earlier |
| `ArtifactDeploymentRounds.RoundResults` | internal/fluxdeployer/internal/controller/deployment_result_status_updater.go:26-88 | results and conditions of a round: emptied with the first failure's reason, replaced by the mapped ones, or kept; several matches change Ready only |
| `ArtifactDeploymentRuns.DeploymentStatusMachine` | internal/fluxdeployer/internal/controller/ready_condition_status_updater.go:15-31 | over every run of either controller Ready implies created and not stalled; an exposure failure leaves nothing published |
| `ArtifactDeploymentRuns.ExposureFailureIsFinal` | internal/fluxdeployer/internal/controller/deployment_result_status_updater.go:26-97 | a recorded exposure failure stays recorded with its reason, results stay empty, Created and Ready False |
| `ArtifactDeploymentRuns.RoundReady` | internal/fluxdeployer/internal/controller/ready_condition_status_updater.go:15-31 | from the old status and the inputs of a round: Ready afterwards if and only if it is not refused, no Service is invalid, and Ready was True or the app is found healthy with results created; stalled if and only if it was or a Service is invalid |
| `ArtifactDeploymentRuns.ReadyWasGranted` | internal/fluxdeployer/internal/controller/ready_condition_status_updater.go:15-31 | over runs Ready is True if and only if nothing is stalled, some round that took effect found the app healthy with results created, and no later one took effect as a refusal |
| `ArtifactDeploymentRuns.StalledExactly` | internal/fluxdeployer/internal/controller/deployment_result_status_updater.go:39-42 | over runs stalled if and only if some round that took effect found an invalid Service |
| `ArtifactDeploymentLimits.ReadyThoughUnhealthy` | internal/fluxdeployer/internal/controller/ready_condition_status_updater.go:15-31 | a run in which Ready stays True after Flux reports the app unhealthy |
| `ArtifactDeploymentRuns.RouterReads` | internal/activationexecution/internal/controller/activation_task_execution_controller.go:309-334 | the router reads a published Service as its result name, its name and the first port of the exposed name |
| `ArtifactDeploymentRuns.PublishedResultsCompile` | internal/activationexecution/internal/controller/activation_task_execution_controller.go:300-370 | results published in any reachable states always compile, with exactly one rule per selected port |
| `ArtifactDeploymentRuns.RulesMeanPorts` | internal/activationexecution/internal/controller/activation_task_execution_controller.go:306-369 | every rule routes to the exposed port of a published Service, and every such Service has its rule |
| `ArtifactDeploymentLimits.NamesMayClash` | internal/activationexecution/internal/controller/activation_task_execution_controller.go:308-337 | reachable ArtifactDeployments of two components can publish one result name for different Services, which makes the compilation ambiguous |
| `ArtifactDeploymentLimits.UnexposedHasNoRule` | internal/activationexecution/internal/controller/activation_task_execution_controller.go:310-320 | a published result of the Service type without an exposed port gets no rule in any compilation |
| `VectorDataFormat.Basename` | internal/vectordata/internal/controller/vectordata_controller.go:192-197 | the segment behind the last slash; the whole name exactly when there is no slash or it comes last |
| `VectorDataFormat.AssertUniqueResults` | internal/vectordata/internal/controller/vectordata_controller.go:172-182 | accepts exactly the lists whose joined keys are pairwise distinct |
| `VectorDataFormat.UniqueByPair` | internal/vectordata/internal/controller/vectordata_controller.go:172-182 | without NUL in names that is uniqueness of the (name, type) pairs |
| `Strings.NulJoinCollides` | internal/vectordata/internal/controller/vectordata_controller.go:175-178 | with NUL inside a name two different pairs share one key, so the condition is needed |
| `Strings.LexLessMeans` | internal/activationexecution/internal/controller/activation_task_execution_controller.go:337-337 | the order of names is the dictionary's |
| `Strings.FoldMeans` | cmd/vectordata/vector_data_service.go:336-336 | case folding identifies exactly the two cases of an ASCII letter |
| `VectorDataFormat.RenderData` | internal/vectordata/internal/controller/vectordata_controller.go:141-168 | for every component order it succeeds exactly on the specs that render, with exactly the entries of features, authored values and components; a component's entry is the array of its results, each with exactly its name, type and spec |
| `VectorDataFormat.RenderAcceptance` | internal/vectordata/internal/controller/vectordata_controller.go:141-182 | acceptance if and only if non-empty basenames are distinct and each component's pairs are unique |
| `VectorDataFormat.RenderingUnique` | internal/vectordata/internal/controller/vectordata_controller.go:141-168 | every order renders the same map |
| `VectorDataLoad.ParseData` | cmd/vectordata/vector_data_service.go:278-303 | the parse loop yields the parse of some key order, stopping at an empty deployment name |
| `VectorDataLoad.ParseMeaning` | cmd/vectordata/vector_data_service.go:278-303 | fails exactly on an empty name; otherwise every entry comes from a key that names it and every key is represented |
| `VectorDataLoad.ParsesOnce` | cmd/vectordata/vector_data_service.go:280-303 | the key order shows in the result if and only if two keys dispute one name with different values |
| `VectorDataLoad.NameRoundTrip` | cmd/vectordata/vector_data_service.go:291-301 | stripping one suffix undoes the printer, also for basenames that end in ".json" |
| `VectorDataLoad.NameVariants` | cmd/vectordata/vector_data_service.go:292-295 | white space around a name and the case or absence of the suffix do not count |
| `VectorDataLoad.LoadData` | cmd/vectordata/vector_data_service.go:266-323 | a load is not found, a failure or the combined document of some parse |
| `VectorDataLoad.LoadMeans` | cmd/vectordata/vector_data_service.go:266-323 | any ConfigMap: not found if and only if it has none of the keys, failed on an empty name or a payload that is not JSON, otherwise its features and authored values under their fields |
| `VectorDataLoad.RenderLoadRoundTrip` | cmd/vectordata/vector_data_service.go:278-323 | loading a rendered spec in any order yields exactly that spec's document, with the name, type and spec of every result, and fails exactly when a payload is not JSON |
| `VectorDataLoad.UnprintableLost` | cmd/vectordata/vector_data_service.go:292-295 | the condition of the round trip is needed: a basename that starts with white space never comes back |
| `VectorDataLoad.CarriesUnique` | internal/vectordata/internal/controller/vectordata_controller.go:138-168 | a spec determines its document |
| `VectorDataController.VectorDataReconciler.HandleDeletion` | internal/vectordata/internal/controller/vectordata_controller.go:199-217 | ConfigMap first, finalizer second, with every failure in between |
| `VectorDataController.VectorDataReconciler.SetReadyCondition` | internal/vectordata/internal/controller/vectordata_controller.go:219-233 | the Ready condition of this object and nothing else |
| `VectorDataController.VectorDataReconciler.EnsureConfigMap` | internal/vectordata/internal/controller/vectordata_controller.go:95-135 | an existing ConfigMap is left alone, a missing one created with this object's uid and data, each outcome reported |
| `VectorDataController.VectorDataReconciler.Reconcile` | internal/vectordata/internal/controller/vectordata_controller.go:67-136 | the call sequence performs the step function |
| `VectorDataLifetime.ConfigMapLifetime` | internal/vectordata/internal/controller/vectordata_controller.go:67-136 | in every reachable state a vector-data ConfigMap belongs to an existing VectorData with the finalizer, its uid and its rendering; Ready=True vouches for it, RenderFailed only for specs that do not render |
| `VectorDataLifetime.NothingInherited` | internal/vectordata/internal/controller/vectordata_controller.go:79-101 | a re-created VectorData never finds its predecessor's ConfigMap |
| `VectorDataLifetime.Materialises` | internal/vectordata/internal/controller/vectordata_controller.go:87-135 | one undisturbed Reconcile from any such state materialises a renderable spec and reports Ready |
| `VectorDataLifetime.TearsDown` | internal/vectordata/internal/controller/vectordata_controller.go:199-217 | one undisturbed Reconcile of a deleted VectorData removes exactly its ConfigMap and the finalizer; the object stays while others are left |
| `VectorDataLifetime.NothingToTearDown` | internal/vectordata/internal/controller/vectordata_controller.go:199-202 | without the finalizer there is nothing to do and nothing left behind |
| `VectorDataLifetime.ReportsExactly` | internal/vectordata/internal/controller/vectordata_controller.go:87-131 | the Ready condition told from what the Reconcile finds: render failed, get failed, create failed or materialized, and done exactly on the last |
| `VectorDataLifetime.StopsEarly` | internal/vectordata/internal/controller/vectordata_controller.go:70-85 | a missing object needs nothing, a failing call is an error, and no ConfigMap is made |
| `VectorDataCache.InMemoryCache.Set` | cmd/vectordata/in_memory_cache.go:22-34 | stores a value, or removes the entry when it is empty |
| `VectorDataCache.HandleEvent` | cmd/vectordata/informer.go:32-61 | updates with an unchanged version do nothing; other updates and deletions drop the entry of the ConfigMap's vector |
| `VectorDataCache.GetConfiguration` | cmd/vectordata/vector_data_service.go:257-330 | a hit answers from the cache; a miss answers a load and caches exactly the configurations |
| `VectorDataCache.StepFresh` | cmd/vectordata/vector_data_service.go:321-323 | a step keeps what is cached for a vector fresh if and only if it does not store an outdated load |
| `VectorDataCache.CacheAgrees` | cmd/vectordata/vector_data_service.go:257-330 | over any changes and any delivery order: throughout a run what is cached for a vector is a possible load of its ConfigMap now, or an event for it is queued, if and only if no load of it is stored while outdated and out of news |
| `VectorDataCache.CalmAgrees` | cmd/vectordata/informer.go:32-61 | that is so in runs in which no delivery takes the last news of an outdated load in flight |
| `VectorDataCache.OldNewsHarmless` | cmd/vectordata/informer.go:32-61 | an event that arrives during a load of the ConfigMap's current content is such a harmless one |
| `VectorDataCache.RestoredInTime` | cmd/vectordata/vector_data_service.go:321-323 | but in others too: a load can be current again by the time it is stored |
| `VectorDataCache.AnswersRefineLoads` | cmd/vectordata/informer.go:32-61 | as long as a vector's loads are stored in time, and with no event for it outstanding, an answer from the cache is one a fresh load could give |
| `VectorDataCache.AtomicLoadsAgree` | cmd/vectordata/vector_data_service.go:264-324 | with fetch-and-store as one step the whole cache agrees in every reachable state |
| `VectorDataCache.StaleFill` | cmd/vectordata/vector_data_service.go:266-323 | fetch, deletion, delivery, store: an empty queue and a cached configuration of a ConfigMap that is gone |
| `VectorDataSystem.SystemAgrees` | cmd/vectordata/vector_data_service.go:257-330 | controller, service and informer together keep ConfigMaps, Ready conditions and the cache entry of a vector consistent throughout a run if and only if that vector's loads are stored in time |
| `VectorDataSystem.AnswersAreTruthful` | cmd/vectordata/vector_data_service.go:257-330 | then an answer is exactly the document of the VectorData that exists now, and a Ready one that is not being deleted is found |
| `VectorDataSystem.StaleAnswer` | cmd/vectordata/vector_data_service.go:266-323 | the condition is needed for every spec that can be materialised: a load across the teardown answers with the document of a VectorData that is gone |
| `FlagEvaluation.ListFlags` | cmd/vectordata/vector_data_service.go:218-238 | one entry per feature, strictly sorted by key, each showing what its feature evaluates to: booleans and numbers as they are, other numbers as their literal, strings as themselves or the JSON they hold, null, arrays and objects not found |
| `FlagEvaluation.ListsOnce` | cmd/vectordata/vector_data_service.go:218-238 | the list is a function of the features |
| `FlagEvaluation.EvaluateFeatures` | cmd/vectordata/vector_data_service.go:203-239 | failed loads and non-object features are errors, a missing configuration is an empty list |
| `FlagEvaluation.LookUpMeans` | cmd/vectordata/vector_data_service.go:334-401 | the single lookup in full: own name answers the document, other keys what their feature evaluates to by its kind, not found without such a feature, an error on features that are no object |
| `FlagEvaluation.BulkAndSingleAgree` | cmd/vectordata/vector_data_service.go:334-401 | for every key but the vector's own name the two endpoints agree on value, not-found and error, each if and only if |
| `FlagEvaluation.SpecFeatures` | cmd/vectordata/vector_data_service.go:349-373 | a materialised spec's features are served exactly when they are an object |
| `FlagEvaluation.ValuesAreNotNull` | cmd/vectordata/vector_data_service.go:377-401 | no answer carries a null value |
| `FlagEvaluation.FlagsComeFromSpec` | cmd/vectordata/vector_data_service.go:139-183 | as long as its loads are stored in time, a Ready vector answers each key with what that feature of its current spec evaluates to |
| `FlagEvaluation.OwnNameAnswersSpec` | cmd/vectordata/vector_data_service.go:334-338 | and its own name with the document of that spec |
| `FlagEvaluation.EvaluateBulk` | cmd/vectordata/vector_data_service.go:189-253 | refusals, errors, and 304 exactly on tag equality |
| `FlagEvaluation.ResponseMeans` | cmd/vectordata/vector_data_service.go:210-252 | an Ok response lists exactly the features of the targeted document, none without one, under a tag the client did not send |
| `FlagEvaluation.RequestMeans` | cmd/vectordata/vector_data_service.go:139-152 | which requests are refused with which code, and whose configuration the others ask for |
| `FlagEvaluation.RefusalsAgree` | cmd/vectordata/vector_data_service.go:139-208 | both endpoints refuse the same requests with the same code and fail on the same configurations |
| `FlagEvaluation.Revalidation` | cmd/vectordata/vector_data_service.go:241-252 | unchanged features revalidate whatever else changed; without hash collisions only equal lists do |
| `Names.SanitizeValid` | internal/fluxdeployer/internal/fluxcd/utils/utils.go:12-34 | the result is a DNS-1123 label if and only if the name has a letter or digit and the cut does not fall on anything else |
| `Names.SanitizeInvalid` | internal/fluxdeployer/internal/fluxcd/utils/utils.go:29-31 | a family of names whose sanitised form is not a label |
| `Names.SanitizeIdentity` | internal/fluxdeployer/internal/fluxcd/utils/utils.go:12-34 | labels are left alone |
| `Names.SanitizeIgnoresCase` | internal/fluxdeployer/internal/fluxcd/utils/utils.go:13-14 | names that differ in case sanitise alike |
| `Names.SanitizeReplaces` | internal/fluxdeployer/internal/fluxcd/utils/utils.go:16-26 | other ASCII characters become dashes between labels and disappear around them |
| `Names.SanitizeIdempotent` | internal/fluxdeployer/internal/fluxcd/utils/utils.go:12-34 | sanitising twice is sanitising once if and only if the cut does not leave a dash behind |
| `Names.SelectorMatches` | internal/fluxdeployer/internal/controller/deployment_result_status_updater.go:102-106 | the Service selector equals the raw object name if and only if that has no dot and at most 63 characters |
| `Names.SelectorMisses` | internal/fluxdeployer/internal/controller/deployment_result_status_updater.go:102-106 | an object name whose selector is the label of another one |
| `Names.SelectorsApart` | internal/fluxdeployer/internal/controller/deployment_result_status_updater.go:102-106 | the selector of an object name is another object name if and only if the name has a dot or is too long, and the cut leaves a letter or digit last |
| `Names.SuffixShape` | internal/fluxdeployer/internal/fluxcd/reconciler/utils.go:31-40 | at most 36 characters, ending in a dash and the hash, whatever the version |
| `Names.SuffixesDiffer` | internal/fluxdeployer/internal/fluxcd/reconciler/utils.go:31-40 | different hashes, of any lengths, never share a suffix |
| `Names.SuffixShowsVersion` | internal/fluxdeployer/internal/fluxcd/reconciler/utils.go:36-39 | a label-shaped version shows whole when both fit and not at all otherwise |
| `Names.SuffixCountsBytes` | internal/fluxdeployer/internal/fluxcd/reconciler/utils.go:36-39 | fitting is counted in bytes |
| `Names.BoundedJobNameIsLabel` | internal/taskexecution/internal/controller/taskexecution_controller.go:166-173 | a label-shaped base of any length gives a DNS-1123 label that ends in the whole suffix |
| `Names.BoundedJobNameKeeps` | internal/taskexecution/internal/controller/taskexecution_controller.go:166-173 | a base that fits is kept whole; a longer one is cut to the room there is and loses only dashes at the cut |
| `Names.BoundedJobNameIsSubdomain` | internal/taskexecution/internal/controller/taskexecution_controller.go:148-173 | for an object name the Job name is an object name if and only if the cut does not fall behind a dot |
| `Names.BoundedJobNameInvalid` | internal/taskexecution/internal/controller/taskexecution_controller.go:148-173 | object names for which it falls there |

## Left out

- Interleavings inside one Reconcile, stale reads from the client cache and patch conflicts: the code promises nothing there; `StageRouteRuns.WriteNeedsGuard` and `StageRouteRuns.OrphanRace` say what that costs.
- Condition messages, transition times and observed generations; Kubernetes events and logs.
- Several namespaces: every object lives in one landscape namespace, and the landscape client is the local one.
- Finalizers on Gateways: a deleted Gateway is gone at once.
- The spelling of JSON: white space, duplicate keys, Go's case-insensitive field matching, and the rounding of numbers inside a string that holds JSON.
- Case folding and lower-casing beyond ASCII, except where lower-casing yields an ASCII letter; white space beyond Latin-1; strings that are not valid UTF-8.
- ConfigMap validation other than the characters of the keys: size limits and the like are rejected creates.
- Fetch and store of the cache are two steps; singleflight is one load in flight per vector, and a second waiter's copy of the result is not modelled.
- HTTP plumbing, health and readiness probes, and SHA-1 itself.
- The construction of Flux, HelmChart and Kustomization specs, registry references, pull secrets and kubeconfigs: field copying.
- TaskExecution's Reconcile and Job creation, VectorDeployment assembly by other operators, and process set-up: short branches that would add easy members only.
- VectorDataSystem.AnswersAreTruthful: holds as long as no load of the vector is stored while outdated and out of news, because without that it is false (`VectorDataSystem.StaleAnswer`).
- FlagEvaluation.FlagsComeFromSpec: holds under the same condition, for the same reason.
- VectorDataCache.AnswersRefineLoads: holds under the same condition, for the same reason (`VectorDataCache.StaleFill`).
- StageRouteSupersession.SupersessionSafety: holds while the Stage is not re-created, because without that it is false (`StageRouteSupersession.RecreationReverts`).
- VectorDataLoad.RenderLoadRoundTrip: requires that no basename starts with white space, which every key the API server admits satisfies, because without that it is false (`VectorDataLoad.UnprintableLost`).
