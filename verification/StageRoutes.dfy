/**
 * The stage-route protocol as a step function: what one Reconcile of an ActivationTaskExecution and one Reconcile of
 * a deleted Stage do to the API server. All objects live in one landscape namespace.
 *
 * Every API call may fail. A rejected call has no effect; a lost call takes effect and then reports an error. A
 * Reconcile returns at the first error, so the order of its calls decides which intermediate states a failure leaves
 * behind.
 */
module StageRoutes {
  import opened Strings
  import opened Conditions
  import opened DeploymentResults
  import opened RouteRules
  import opened Routing
  import opened RouterGateway

  /** konfidence.cloud/gateway-route-cleanup, and everybody else's finalizers. */
  datatype Finalizer = RouteCleanup | Foreign(name: string)

  // ----- objects -----

  /** `uid` tells a re-created Stage from its predecessor. */
  datatype Stage = Stage(uid: int, finalizers: set<Finalizer>, deleting: bool, active: Option<string>)

  datatype Activation = Activation(stage: string, stageVersion: string, deployment: string)

  datatype ExecutionCondition = InProgress | Succeeded | ExecutionFailed

  type ExecutionStatus = map<ExecutionCondition, Condition<Reason>>

  /** `config` is Spec.Spec.Raw; None stands for an empty one. */
  datatype Execution = Execution(
    uid: int,
    activation: string,
    config: Option<Raw>,
    created: int,
    conditions: ExecutionStatus)

  /** `gateway` is the Gateway konfidence-router; `versions` maps a StageVersion to its creation time. */
  datatype Cluster = Cluster(
    stages: map<string, Stage>,
    versions: map<string, int>,
    activations: map<string, Activation>,
    deployments: map<string, VectorDeployment>,
    executions: map<string, Execution>,
    routes: map<string, Route>,
    gateway: Option<Gateway>,
    classes: set<string>)

  predicate Guarded(s: Cluster, stage: string) {
    stage in s.stages && RouteCleanup in s.stages[stage].finalizers
  }

  // ----- calls -----

  datatype Call =
    | GetExecution | GetActivation | GetStage | GetOwnVersion | GetActiveVersion | GetDeployment
    | DeleteRoute | GetStageAgain | AddFinalizer | GetGateway | GetGatewayClass | CreateGateway | DeleteGateway
    | ApplyRoute | PatchStatus | RemoveFinalizer

  /**
   * What a Reconcile cannot know: the clock, which calls fail, whether the CRDs keep spec routability, and a Gateway
   * somebody else creates between this Reconcile's lookup and its own create.
   */
  datatype Oracle = Oracle(now: int, rejected: set<Call>, lost: set<Call>, kept: bool, racer: Option<Gateway>)

  predicate Fails(o: Oracle, call: Call) {
    call in o.rejected || call in o.lost
  }

  predicate Takes(o: Oracle, call: Call) {
    call !in o.rejected
  }

  datatype Outcome = Done | Requeue(after: int) | Error

  // ----- configuration -----

  datatype GatewayConfig = GatewayConfig(name: string, namespace: string, className: string, provisions: bool)

  function ConfigOf(name: string, namespace: string, className: string): GatewayConfig {
    GatewayConfig(if name == "" then DEFAULT_GATEWAY_NAME else name, namespace, className,
                  className != "" && name == "" && namespace == "")
  }

  /** parseGatewayRouteConfig: None is an error. */
  function ParseConfig(raw: Option<Raw>): (config: Option<GatewayConfig>)
    ensures config.Some? ==> config.value.name != ""
    ensures config.Some? && config.value.provisions ==>
              config.value.name == DEFAULT_GATEWAY_NAME && config.value.namespace == "" && config.value.className != ""
  {
    match raw
    case None => Some(ConfigOf("", "", ""))
    case Some(NotJson(_)) => None
    case Some(JsonText(json)) =>
      if json.Null? then Some(ConfigOf("", "", ""))
      else if !json.Obj? then None
      else
        match (StringField(json.fields, "gatewayName"), StringField(json.fields, "gatewayNamespace"),
               StringField(json.fields, "gatewayClassName"))
        case (Some(name), Some(namespace), Some(className)) => Some(ConfigOf(name, namespace, className))
        case _ => None
  }

  function RouteOf(config: GatewayConfig, rules: seq<Rule>): Route {
    Route(config.name, if config.namespace == "" then None else Some(config.namespace), rules)
  }

  // ----- supersession -----

  datatype Verdict = Superseded | Current | LookupFailed

  /** isSuperseded */
  function Supersession(s: Cluster, a: Activation, o: Oracle): Verdict {
    if Fails(o, GetStage) then LookupFailed
    else if a.stage !in s.stages then Superseded
    else if s.stages[a.stage].active.None? || s.stages[a.stage].active.value == a.stageVersion then Current
    else if Fails(o, GetOwnVersion) then LookupFailed
    else if a.stageVersion !in s.versions then Superseded
    else if Fails(o, GetActiveVersion) then LookupFailed
    else if s.stages[a.stage].active.value !in s.versions then Current
    else if s.versions[a.stageVersion] < s.versions[s.stages[a.stage].active.value] then Superseded
    else Current
  }

  // ----- effects -----

  datatype Attempt = Attempt(cluster: Cluster, ok: bool)

  /** ensureStageFinalizer. The API server refuses a new finalizer on an object that is being deleted. */
  function EnsureFinalizer(s: Cluster, stage: string, o: Oracle): Attempt {
    if Fails(o, GetStageAgain) || stage !in s.stages then Attempt(s, false)
    else if Guarded(s, stage) then Attempt(s, true)
    else if s.stages[stage].deleting then Attempt(s, false)
    else
      var guarded := s.stages[stage].(finalizers := s.stages[stage].finalizers + {RouteCleanup});
      Attempt(if Takes(o, AddFinalizer) then s.(stages := s.stages[stage := guarded]) else s, !Fails(o, AddFinalizer))
  }

  datatype Provision = Provision(cluster: Cluster, state: Option<GatewayState>)

  function RemoveGateway(s: Cluster, o: Oracle, state: GatewayState): Provision {
    Provision(if Takes(o, DeleteGateway) then s.(gateway := None) else s,
              if Fails(o, DeleteGateway) then None else Some(state))
  }

  /** createRouterGateway */
  function CreateGatewayStep(s: Cluster, className: string, startedAt: int, o: Oracle): Provision {
    if Fails(o, GetGatewayClass) then Provision(s, None)
    else if className !in s.classes then Provision(s, Some(MissingClass(startedAt, o.now)))
    else if o.racer.Some? then
      // Create answers AlreadyExists, which is not an error here.
      Provision(s.(gateway := Some(o.racer.value.(created := o.now))),
                if Fails(o, CreateGateway) then None else Some(GatewayState(Pending, WaitingForClusterAddress, false)))
    else
      var gateway := NewGateway(className, o.kept, o.now);
      var s1 := if Takes(o, CreateGateway) then s.(gateway := Some(gateway)) else s;
      if Fails(o, CreateGateway) then Provision(s1, None)
      else if !RequestsClusterRoutability(gateway) then RemoveGateway(s1, o, Evaluate(gateway, o.now))
      else Provision(s1, Some(GatewayState(Pending, WaitingForClusterAddress, false)))
  }

  /** ensureRouterGateway: None is an error. */
  function EnsureGateway(s: Cluster, className: string, startedAt: int, o: Oracle): Provision {
    if Fails(o, GetGateway) then Provision(s, None)
    else if s.gateway.None? then CreateGatewayStep(s, className, startedAt, o)
    else if !Provisioned(s.gateway.value) then Provision(s, Some(GatewayState(Ready, NoReason, false)))
    else
      var state := Evaluate(s.gateway.value, o.now);
      if state.exposed then RemoveGateway(s, o, state) else Provision(s, Some(state))
  }

  // ----- status -----

  function MarkSucceeded(conditions: ExecutionStatus): ExecutionStatus {
    (conditions - {InProgress})[Succeeded := Condition(True, ActivationSucceeded)]
  }

  /** The condition half of reportRouterGateway. */
  function Reported(conditions: ExecutionStatus, state: GatewayState): ExecutionStatus {
    if state.phase == Pending then conditions[InProgress := Condition(True, state.reason)]
    else (conditions - {InProgress})[ExecutionFailed := Condition(True, state.reason)]
  }

  // ----- the activation Reconcile -----

  datatype Progress = Progress(cluster: Cluster, conditions: ExecutionStatus, outcome: Outcome)

  /** No result selects a port: the stage's route goes. */
  function DropRoute(s: Cluster, x: Execution, stage: string, o: Oracle): Progress {
    var s1 := if Takes(o, DeleteRoute) then s.(routes := s.routes - {StageRouteName(stage)}) else s;
    if Fails(o, DeleteRoute) then Progress(s1, x.conditions, Error)
    else Progress(s1, MarkSucceeded(x.conditions), Done)
  }

  function WriteRoute(s: Cluster, x: Execution, stage: string, route: Route, o: Oracle): Progress {
    var s1 := if Takes(o, ApplyRoute) then s.(routes := s.routes[StageRouteName(stage) := route]) else s;
    if Fails(o, ApplyRoute) then Progress(s1, x.conditions, Error)
    else Progress(s1, MarkSucceeded(x.conditions), Done)
  }

  /** Bind the route to the Stage, gate on the Gateway, then write the route. */
  function Publish(s: Cluster, x: Execution, stage: string, config: GatewayConfig, rules: seq<Rule>, o: Oracle): Progress {
    var bound := EnsureFinalizer(s, stage, o);
    if !bound.ok then Progress(bound.cluster, x.conditions, Error)
    else if !config.provisions then WriteRoute(bound.cluster, x, stage, RouteOf(config, rules), o)
    else
      var gated := EnsureGateway(bound.cluster, config.className, x.created, o);
      if gated.state.None? then Progress(gated.cluster, x.conditions, Error)
      else if gated.state.value.phase != Ready then
        Progress(gated.cluster, Reported(x.conditions, gated.state.value),
                 if gated.state.value.phase == Pending then Requeue(POLL_INTERVAL) else Done)
      else WriteRoute(gated.cluster, x, stage, RouteOf(config, rules), o)
  }

  /** An execution that is not superseded: `c` is what its deployment compiled to. */
  function Activate(s: Cluster, x: Execution, a: Activation, o: Oracle, c: Compiled): Progress {
    var config := ParseConfig(x.config);
    if config.None? || Fails(o, GetDeployment) || a.deployment !in s.deployments || c.Broken?
    then Progress(s, x.conditions, Error)
    else if c.rules == [] then DropRoute(s, x, a.stage, o)
    else Publish(s, x, a.stage, config.value, c.rules, o)
  }

  /** reconcileActivationTaskExecution */
  function ReconcileExecution(s: Cluster, x: Execution, o: Oracle, c: Compiled): Progress {
    if IsTrue(x.conditions, ExecutionFailed) then Progress(s, x.conditions, Done)
    else if Fails(o, GetActivation) || x.activation !in s.activations then Progress(s, x.conditions, Error)
    else
      var a := s.activations[x.activation];
      match Supersession(s, a, o)
      case LookupFailed => Progress(s, x.conditions, Error)
      case Superseded => Progress(s, MarkSucceeded(x.conditions), Done)
      case Current => Activate(s, x, a, o, c)
  }

  /** Reconcile: run the core, then patch the status if it changed. */
  function Reconciled(s: Cluster, e: string, o: Oracle, c: Compiled): (Cluster, Outcome) {
    if Fails(o, GetExecution) then (s, Error)
    else if e !in s.executions then (s, Done)
    else
      var x := s.executions[e];
      var p := ReconcileExecution(s, x, o, c);
      if p.conditions == x.conditions then (p.cluster, p.outcome)
      else
        (if Takes(o, PatchStatus)
         then p.cluster.(executions := p.cluster.executions[e := x.(conditions := p.conditions)])
         else p.cluster,
         if Fails(o, PatchStatus) then Error else p.outcome)
  }

  /** `c` is a possible compilation of the deployment that execution `e` activates, if there is one. */
  ghost predicate CompiledFor(s: Cluster, e: string, c: Compiled) {
    e in s.executions && s.executions[e].activation in s.activations
    && s.activations[s.executions[e].activation].deployment in s.deployments ==>
      var a := s.activations[s.executions[e].activation];
      MayCompile(a.stage, s.deployments[a.deployment], c)
  }

  // ----- the cleanup Reconcile -----

  /** A patch that removes the last finalizer of a deleted object removes the object. */
  function WithoutFinalizer(s: Cluster, stage: string): Cluster
    requires stage in s.stages
  {
    var left := s.stages[stage].finalizers - {RouteCleanup};
    if s.stages[stage].deleting && left == {} then s.(stages := s.stages - {stage})
    else s.(stages := s.stages[stage := s.stages[stage].(finalizers := left)])
  }

  /** deleteStageRoute */
  function DeleteStageRoute(s: Cluster, stage: string, o: Oracle): Attempt {
    Attempt(if Takes(o, DeleteRoute) then s.(routes := s.routes - {StageRouteName(stage)}) else s, !Fails(o, DeleteRoute))
  }

  function ReleaseStage(s: Cluster, stage: string, o: Oracle): Attempt
    requires stage in s.stages
  {
    Attempt(if Takes(o, RemoveFinalizer) then WithoutFinalizer(s, stage) else s, !Fails(o, RemoveFinalizer))
  }

  /** StageRouteCleanupReconciler.Reconcile */
  function CleanedUp(s: Cluster, stage: string, o: Oracle): (Cluster, Outcome) {
    if Fails(o, GetStage) then (s, Error)
    else if stage !in s.stages then (s, Done)
    else if !s.stages[stage].deleting || !Guarded(s, stage) then (s, Done)
    else
      var dropped := DeleteStageRoute(s, stage, o);
      if !dropped.ok then (dropped.cluster, Error)
      else
        var released := ReleaseStage(dropped.cluster, stage, o);
        (released.cluster, if released.ok then Done else Error)
  }
}
