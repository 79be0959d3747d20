/** What one Reconcile may touch: the facts every theorem about runs is built from. */
module StageRouteEffects {
  import opened Strings
  import opened Conditions
  import opened RouteRules
  import opened Routing
  import opened RouterGateway
  import opened StageRoutes

  /** Objects no Reconcile writes. */
  ghost predicate Framed(s: Cluster, s': Cluster) {
    && s'.versions == s.versions && s'.activations == s.activations && s'.deployments == s.deployments
    && s'.classes == s.classes
  }

  /** The Stage list is unchanged, or `stage` was bound to the operator. */
  ghost predicate Bound(s: Cluster, s': Cluster, stage: string) {
    || s'.stages == s.stages
    || (&& stage in s.stages && !s.stages[stage].deleting
        && s'.stages == s.stages[stage := s.stages[stage].(finalizers := s.stages[stage].finalizers + {RouteCleanup})])
  }

  /** A provisioned Gateway that is removed or created, never the admin's, and the admin's is never altered. */
  ghost predicate GatewayMove(s: Cluster, s': Cluster) {
    s.gateway.Some? ==> s'.gateway == s.gateway || (Provisioned(s.gateway.value) && s'.gateway.None?)
  }

  lemma EnsureFinalizerEffect(s: Cluster, stage: string, o: Oracle)
    ensures
      var b := EnsureFinalizer(s, stage, o);
      && Framed(s, b.cluster) && Bound(s, b.cluster, stage)
      && b.cluster.executions == s.executions && b.cluster.routes == s.routes && b.cluster.gateway == s.gateway
      && (b.ok ==> Guarded(b.cluster, stage))
  {
  }

  /** Pending because the class is missing, or because a Gateway exists that is younger than the timeout. */
  ghost predicate MayWait(s: Cluster, s': Cluster, startedAt: int, now: int) {
    || (s.gateway.None? && s'.gateway.None? && now - startedAt <= READY_TIMEOUT)
    || (&& s'.gateway.Some? && now - s'.gateway.value.created <= READY_TIMEOUT
        && (s.gateway.Some? ==> s'.gateway == s.gateway)
        && (s.gateway.None? ==> s'.gateway.value.created == now))
  }

  lemma EnsureGatewayEffect(s: Cluster, className: string, startedAt: int, o: Oracle)
    ensures
      var g := EnsureGateway(s, className, startedAt, o);
      && g.cluster == s.(gateway := g.cluster.gateway)
      && GatewayMove(s, g.cluster)
      && (g.state.Some? && g.state.value.phase == Ready ==>
            g.cluster == s && s.gateway.Some? && SafeToAttach(s.gateway.value))
      && (g.state.Some? && g.state.value.phase == Pending ==> MayWait(s, g.cluster, startedAt, o.now))
      && (g.state.Some? && s.gateway.Some? && g.cluster.gateway != s.gateway ==> g.state.value.phase == Failed)
  {
    hide Evaluate, Provisioned, CreateGatewayStep, RemoveGateway;
    CreateGatewayEffect(s, className, startedAt, o);
    if s.gateway.Some? {
      RemoveGatewayEffect(s, o, Evaluate(s.gateway.value, o.now));
    }
  }

  lemma RemoveGatewayEffect(s: Cluster, o: Oracle, state: GatewayState)
    ensures
      var g := RemoveGateway(s, o, state);
      && (g.cluster == s || g.cluster == s.(gateway := None))
      && (g.state == None || g.state == Some(state))
  {
  }

  lemma CreateGatewayEffect(s: Cluster, className: string, startedAt: int, o: Oracle)
    ensures
      var g := CreateGatewayStep(s, className, startedAt, o);
      && g.cluster == s.(gateway := g.cluster.gateway)
      && (g.state.Some? ==> g.state.value.phase != Ready)
      && (g.state.Some? && g.state.value.phase == Pending && s.gateway.None? ==> MayWait(s, g.cluster, startedAt, o.now))
  {
    hide Evaluate, RemoveGateway, RequestsClusterRoutability;
    var gateway := NewGateway(className, o.kept, o.now);
    RemoveGatewayEffect(s, o, Evaluate(gateway, o.now));
    RemoveGatewayEffect(s.(gateway := Some(gateway)), o, Evaluate(gateway, o.now));
  }

  /** The route write of a Reconcile, if it makes one: on a guarded Stage, and past the Gateway gate. */
  ghost predicate RouteWritten(s: Cluster, s': Cluster, stage: string, config: GatewayConfig, rules: seq<Rule>) {
    && s'.routes == s.routes[StageRouteName(stage) := RouteOf(config, rules)]
    && Guarded(s', stage) && s'.gateway == s.gateway
    && (config.provisions ==> s.gateway.Some? && SafeToAttach(s.gateway.value))
  }

  lemma PublishEffect(s: Cluster, x: Execution, stage: string, config: GatewayConfig, rules: seq<Rule>, o: Oracle)
    ensures
      var p := Publish(s, x, stage, config, rules, o);
      && Framed(s, p.cluster) && Bound(s, p.cluster, stage) && GatewayMove(s, p.cluster)
      && p.cluster.executions == s.executions
      && (p.cluster.routes == s.routes || RouteWritten(s, p.cluster, stage, config, rules))
      && (p.outcome == Done && !IsTrue(p.conditions, ExecutionFailed) ==>
            RouteWritten(s, p.cluster, stage, config, rules))
      && (p.outcome.Requeue? ==> MayWait(s, p.cluster, x.created, o.now))
      && (config.provisions || p.cluster.gateway == s.gateway)
      && (p.outcome != Error && s.gateway.Some? && p.cluster.gateway != s.gateway ==> IsTrue(p.conditions, ExecutionFailed))
  {
    hide EnsureFinalizer, EnsureGateway, WriteRoute, StageRouteName, RouteOf, SafeToAttach, Provisioned;
    EnsureFinalizerEffect(s, stage, o);
    var s1 := EnsureFinalizer(s, stage, o).cluster;
    EnsureGatewayEffect(s1, config.className, x.created, o);
    WriteRouteEffect(s1, x, stage, RouteOf(config, rules), o);
  }

  lemma WriteRouteEffect(s: Cluster, x: Execution, stage: string, route: Route, o: Oracle)
    ensures
      var p := WriteRoute(s, x, stage, route, o);
      && !p.outcome.Requeue?
      && (p.cluster == s || p.cluster == s.(routes := s.routes[StageRouteName(stage) := route]))
      && (p.outcome == Done ==> p.cluster == s.(routes := s.routes[StageRouteName(stage) := route]))
  {
    hide StageRouteName;
  }

  /** Everything a Reconcile of `x` for activation `a` may do to the cluster. */
  ghost predicate Touches(s: Cluster, s': Cluster, x: Execution, a: Activation, c: Compiled) {
    && Framed(s, s') && Bound(s, s', a.stage) && GatewayMove(s, s')
    && (s'.routes != s.routes ==> a.deployment in s.deployments)
    && (s'.gateway != s.gateway ==> ParseConfig(x.config).Some? && ParseConfig(x.config).value.provisions)
    && (|| s'.routes == s.routes
        || (&& c == Rules([]) && s'.routes == s.routes - {StageRouteName(a.stage)}
            && s'.stages == s.stages && s'.gateway == s.gateway)
        || (&& c.Rules? && c.rules != [] && ParseConfig(x.config).Some?
            && RouteWritten(s, s', a.stage, ParseConfig(x.config).value, c.rules)))
  }

  lemma ActivateEffect(s: Cluster, x: Execution, a: Activation, o: Oracle, c: Compiled)
    ensures
      var p := Activate(s, x, a, o, c);
      && Touches(s, p.cluster, x, a, c)
      && p.cluster.executions == s.executions
      && (p.outcome.Requeue? ==> MayWait(s, p.cluster, x.created, o.now))
      && (p.outcome != Error && s.gateway.Some? && p.cluster.gateway != s.gateway ==> IsTrue(p.conditions, ExecutionFailed))
  {
    hide Publish, DropRoute, ParseConfig, StageRouteName, RouteOf, Provisioned, SafeToAttach;
    if ParseConfig(x.config).Some? && c.Rules? {
      if c.rules == [] {
        DropRouteEffect(s, x, a.stage, o);
      } else {
        PublishEffect(s, x, a.stage, ParseConfig(x.config).value, c.rules, o);
      }
    }
  }

  lemma DropRouteEffect(s: Cluster, x: Execution, stage: string, o: Oracle)
    ensures
      var p := DropRoute(s, x, stage, o);
      && !p.outcome.Requeue?
      && (p.cluster == s || p.cluster == s.(routes := s.routes - {StageRouteName(stage)}))
      && (p.outcome == Done ==> p.cluster == s.(routes := s.routes - {StageRouteName(stage)}))
  {
    hide StageRouteName;
  }

  /** A Reconcile that is not about a live activation leaves the cluster alone. */
  lemma ReconcileExecutionEffect(s: Cluster, x: Execution, o: Oracle, c: Compiled)
    ensures
      var p := ReconcileExecution(s, x, o, c);
      && p.cluster.executions == s.executions
      && (p.cluster == s || (&& !IsTrue(x.conditions, ExecutionFailed)
                             && x.activation in s.activations
                             && Supersession(s, s.activations[x.activation], o) == Current
                             && Touches(s, p.cluster, x, s.activations[x.activation], c)))
      && (p.outcome.Requeue? ==> MayWait(s, p.cluster, x.created, o.now))
      && (p.outcome != Error && s.gateway.Some? && p.cluster.gateway != s.gateway ==> IsTrue(p.conditions, ExecutionFailed))
  {
    hide Activate, Supersession, MarkSucceeded;
    if x.activation in s.activations {
      ActivateEffect(s, x, s.activations[x.activation], o, c);
    }
  }

  /** The same for Reconcile as a whole: its own status is the only execution status it writes. */
  ghost predicate ReconcileMoves(s: Cluster, e: string, o: Oracle, c: Compiled, s': Cluster) {
    || s'.(executions := s.executions) == s
    || (&& e in s.executions
        && var x := s.executions[e];
           && !IsTrue(x.conditions, ExecutionFailed)
           && x.activation in s.activations
           && Supersession(s, s.activations[x.activation], o) == Current
           && Touches(s, s', x, s.activations[x.activation], c))
  }

  ghost predicate StatusMoves(s: Cluster, e: string, s': Cluster) {
    || s'.executions == s.executions
    || (e in s.executions && exists conditions :: s'.executions == s.executions[e := s.executions[e].(conditions := conditions)])
  }

  /** A Gateway that an error-free Reconcile removes fails the execution. */
  lemma RemovalFails(s: Cluster, e: string, o: Oracle, c: Compiled)
    requires s.gateway.Some? && Reconciled(s, e, o, c).0.gateway != s.gateway && Reconciled(s, e, o, c).1 != Error
    ensures
      var s' := Reconciled(s, e, o, c).0;
      e in s'.executions && IsTrue(s'.executions[e].conditions, ExecutionFailed)
  {
    hide ReconcileExecution;
    ReconcileExecutionEffect(s, s.executions[e], o, c);
  }

  lemma ReconciledEffect(s: Cluster, e: string, o: Oracle, c: Compiled)
    ensures
      var (s', outcome) := Reconciled(s, e, o, c);
      && ReconcileMoves(s, e, o, c, s')
      && StatusMoves(s, e, s')
      && (outcome.Requeue? ==> e in s.executions && MayWait(s, s', s.executions[e].created, o.now))
  {
    hide ReconcileExecution, Supersession, Provisioned, SafeToAttach, ParseConfig, StageRouteName, RouteOf;
    if e in s.executions {
      ReconcileExecutionEffect(s, s.executions[e], o, c);
    }
  }
}
