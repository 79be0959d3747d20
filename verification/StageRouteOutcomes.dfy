/** When a Reconcile fails its execution, when it succeeds, and what both together may leave behind. */
module StageRouteOutcomes {
  import opened Strings
  import opened Conditions
  import opened RouteRules
  import opened Routing
  import opened RouterGateway
  import opened StageRoutes
  import opened StageRouteEffects
  import opened StageRouteRuns
  import opened BoundedWaiting

  // ----- the Gateway step -----

  /** Neither rejected nor exposed, but not usable within the timeout either. */
  predicate Late(gateway: Gateway, now: int) {
    && RequestsClusterRoutability(gateway) && !Rejected(gateway) && !IsClusterRoutable(gateway) && !Reachable(gateway)
    && now - gateway.created > READY_TIMEOUT
  }

  /** Clients outside the cluster may reach it. */
  predicate Exposed(gateway: Gateway) {
    !RequestsClusterRoutability(gateway) || (!Rejected(gateway) && Reachable(gateway))
  }

  /**
   * The Gateway step fails: on a provisioned Gateway that is late, rejected, or exposed and deleted; on a class that is
   * still missing after the timeout; or on a new Gateway whose CRDs did not keep its routability, deleted as well.
   */
  predicate GatewayFails(s: Cluster, className: string, startedAt: int, o: Oracle) {
    && !Fails(o, GetGateway)
    && (if s.gateway.Some? then
          && Provisioned(s.gateway.value)
          && (if Exposed(s.gateway.value) then !Fails(o, DeleteGateway)
              else Rejected(s.gateway.value) || Late(s.gateway.value, o.now))
        else
          && !Fails(o, GetGatewayClass)
          && (if className !in s.classes then o.now - startedAt > READY_TIMEOUT
              else o.racer.None? && !Fails(o, CreateGateway) && !o.kept && !Fails(o, DeleteGateway)))
  }

  lemma GatewayFailsExactly(s: Cluster, className: string, startedAt: int, o: Oracle)
    ensures
      var state := EnsureGateway(s, className, startedAt, o).state;
      state.Some? && state.value.phase == Failed <==> GatewayFails(s, className, startedAt, o)
  {
    hide Provisioned;
    var gateway := NewGateway(className, o.kept, o.now);
    assert RequestsClusterRoutability(gateway) <==> o.kept by {
      assert gateway.specAddresses[0] == if o.kept then ClusterOnly else Unset;
    }
  }

  // ----- failing -----

  /** The finalizer step goes through. */
  predicate Bindable(s: Cluster, stage: string, o: Oracle) {
    && !Fails(o, GetStageAgain) && stage in s.stages
    && (Guarded(s, stage) || (!s.stages[stage].deleting && !Fails(o, AddFinalizer)))
  }

  lemma BindsExactly(s: Cluster, stage: string, o: Oracle)
    ensures EnsureFinalizer(s, stage, o).ok <==> Bindable(s, stage, o)
  {
  }

  /** The execution is there, has not failed, and names an activation that is found. */
  predicate Starts(s: Cluster, e: string, o: Oracle) {
    && !Fails(o, GetExecution) && e in s.executions && !IsTrue(s.executions[e].conditions, ExecutionFailed)
    && !Fails(o, GetActivation) && s.executions[e].activation in s.activations
  }

  /** The Reconcile gets as far as compiling: every lookup succeeds and the execution is current. */
  predicate Activating(s: Cluster, e: string, o: Oracle) {
    && Starts(s, e, o)
    && var a := s.activations[s.executions[e].activation];
       && Supersession(s, a, o) == Current && ParseConfig(s.executions[e].config).Some?
       && !Fails(o, GetDeployment) && a.deployment in s.deployments
  }

  /** It has rules to publish. */
  predicate Arrives(s: Cluster, e: string, o: Oracle, c: Compiled) {
    Activating(s, e, o) && c.Rules? && c.rules != []
  }

  /** A Reconcile that will fail its execution, told before the call. */
  predicate WillFail(s: Cluster, e: string, o: Oracle, c: Compiled) {
    && Arrives(s, e, o, c)
    && var x := s.executions[e];
       var config := ParseConfig(x.config).value;
       && config.provisions && Bindable(s, s.activations[x.activation].stage, o)
       && GatewayFails(s, config.className, x.created, o) && Takes(o, PatchStatus)
  }

  lemma PublishFails(s: Cluster, x: Execution, stage: string, config: GatewayConfig, rules: seq<Rule>, o: Oracle)
    requires !IsTrue(x.conditions, ExecutionFailed)
    ensures
      var p := Publish(s, x, stage, config, rules, o);
      IsTrue(p.conditions, ExecutionFailed) <==>
        config.provisions && Bindable(s, stage, o) && GatewayFails(s, config.className, x.created, o)
  {
    hide EnsureFinalizer, EnsureGateway, GatewayFails, Bindable, StageRouteName, RouteOf;
    EnsureFinalizerEffect(s, stage, o);
    BindsExactly(s, stage, o);
    var s1 := EnsureFinalizer(s, stage, o).cluster;
    SameGateway(s, s1, config.className, x.created, o);
    GatewayFailsExactly(s1, config.className, x.created, o);
  }

  lemma SameGateway(s: Cluster, s1: Cluster, className: string, startedAt: int, o: Oracle)
    requires s1.gateway == s.gateway && s1.classes == s.classes
    ensures GatewayFails(s1, className, startedAt, o) <==> GatewayFails(s, className, startedAt, o)
  {
  }

  lemma ExecutionFails(s: Cluster, e: string, o: Oracle, c: Compiled)
    requires e in s.executions && !IsTrue(s.executions[e].conditions, ExecutionFailed) && !Fails(o, GetExecution)
    ensures
      var x := s.executions[e];
      IsTrue(ReconcileExecution(s, x, o, c).conditions, ExecutionFailed) <==>
        && Arrives(s, e, o, c) && ParseConfig(x.config).value.provisions
        && Bindable(s, s.activations[x.activation].stage, o)
        && GatewayFails(s, ParseConfig(x.config).value.className, x.created, o)
  {
    hide Publish, GatewayFails, Bindable, Supersession, ParseConfig, StageRouteName;
    var x := s.executions[e];
    if Arrives(s, e, o, c) {
      PublishFails(s, x, s.activations[x.activation].stage, ParseConfig(x.config).value, c.rules, o);
    }
  }

  /** An execution that has not failed fails if and only if the Gateway step fails on it and the status patch takes. */
  lemma FailsExactly(s: Cluster, e: string, o: Oracle, c: Compiled)
    requires e in s.executions && !IsTrue(s.executions[e].conditions, ExecutionFailed)
    ensures
      var s' := Reconciled(s, e, o, c).0;
      e in s'.executions && (IsTrue(s'.executions[e].conditions, ExecutionFailed) <==> WillFail(s, e, o, c))
  {
    hide ReconcileExecution, GatewayFails, Bindable, Supersession, ParseConfig;
    if !Fails(o, GetExecution) {
      ExecutionFails(s, e, o, c);
      ReconcileExecutionEffect(s, s.executions[e], o, c);
    }
  }

  // ----- both terminal conditions -----

  /** Both terminal conditions are True. */
  ghost predicate Contradicts(s: Cluster, e: string) {
    e in s.executions && IsTrue(s.executions[e].conditions, Succeeded) && IsTrue(s.executions[e].conditions, ExecutionFailed)
  }

  lemma ReconcileTerminal(s: Cluster, e: string, o: Oracle, c: Compiled)
    requires e in s.executions
    ensures
      var s' := Reconciled(s, e, o, c).0;
      && e in s'.executions
      && (IsTrue(s'.executions[e].conditions, ExecutionFailed) ==>
            (IsTrue(s'.executions[e].conditions, Succeeded) <==> IsTrue(s.executions[e].conditions, Succeeded)))
  {
    hide Supersession, ParseConfig, EnsureFinalizer, EnsureGateway, StageRouteName, RouteOf;
    ReconcileExecutionEffect(s, s.executions[e], o, c);
  }

  /**
   * When the terminal conditions exclude each other: an execution comes to carry both exactly by a Reconcile that meets
   * a failing Gateway after an earlier one had succeeded, since failing does not take Succeeded back.
   */
  lemma TerminalConditions(s: Cluster, step: Step, s': Cluster, e: string)
    requires Next(s, step, s')
    requires e in s.executions && e in s'.executions && s.executions[e].uid == s'.executions[e].uid
    ensures Contradicts(s', e) && !Contradicts(s, e) <==>
            && step.Reconcile? && step.execution == e && IsTrue(s.executions[e].conditions, Succeeded)
            && WillFail(s, e, step.oracle, step.compiled)
  {
    hide Reconciled, CleanedUp, CompiledFor, Supersession, ParseConfig, Bindable, GatewayFails;
    match step
    case Reconcile(d, o, c) =>
      ReconciledEffect(s, d, o, c);
      if d == e {
        ReconcileTerminal(s, e, o, c);
        if !IsTrue(s.executions[e].conditions, ExecutionFailed) {
          FailsExactly(s, e, o, c);
        }
      }
    case CleanUp(stage, o) => CleanUpFrame(s, stage, o);
    case Environment =>
  }

  // ----- succeeding -----

  /**
   * Progress: with no failing call, a current execution with rules ends with its route in place if and only if its Stage
   * can be bound and, if it provisions, the Gateway is safe to attach to.
   */
  lemma SucceedsExactly(s: Cluster, e: string, o: Oracle, c: Compiled)
    requires o.rejected == {} && o.lost == {} && Arrives(s, e, o, c)
    ensures
      var (s', outcome) := Reconciled(s, e, o, c);
      var stage, config := s.activations[s.executions[e].activation].stage, ParseConfig(s.executions[e].config).value;
      && e in s'.executions
      && (outcome == Done && !IsTrue(s'.executions[e].conditions, ExecutionFailed) <==>
            && stage in s.stages && (Guarded(s, stage) || !s.stages[stage].deleting)
            && (config.provisions ==> s.gateway.Some? && SafeToAttach(s.gateway.value)))
      && (outcome == Done && !IsTrue(s'.executions[e].conditions, ExecutionFailed) ==>
            RouteWritten(s, s', stage, config, c.rules) && IsTrue(s'.executions[e].conditions, Succeeded))
  {
    hide Publish, Supersession, ParseConfig, SafeToAttach, StageRouteName, RouteOf, GatewayMove, RouteWritten;
    var x := s.executions[e];
    var stage, config := s.activations[x.activation].stage, ParseConfig(x.config).value;
    PublishSucceeds(s, x, stage, config, c.rules, o);
    PublishEffect(s, x, stage, config, c.rules, o);
    var p := Publish(s, x, stage, config, c.rules, o);
    assert p == ReconcileExecution(s, x, o, c);
    if p.outcome == Done && !IsTrue(p.conditions, ExecutionFailed) {
      WrittenWhatever(s, p.cluster, Reconciled(s, e, o, c).0, stage, config, c.rules);
    }
  }

  lemma WrittenWhatever(s: Cluster, s1: Cluster, s': Cluster, stage: string, config: GatewayConfig, rules: seq<Rule>)
    requires RouteWritten(s, s1, stage, config, rules) && s' == s1.(executions := s'.executions)
    ensures RouteWritten(s, s', stage, config, rules)
  {
    hide StageRouteName, RouteOf, SafeToAttach;
  }

  lemma PublishSucceeds(s: Cluster, x: Execution, stage: string, config: GatewayConfig, rules: seq<Rule>, o: Oracle)
    requires o.rejected == {} && o.lost == {} && !IsTrue(x.conditions, ExecutionFailed)
    ensures
      var p := Publish(s, x, stage, config, rules, o);
      && (p.outcome == Done && !IsTrue(p.conditions, ExecutionFailed) <==>
            && stage in s.stages && (Guarded(s, stage) || !s.stages[stage].deleting)
            && (config.provisions ==> s.gateway.Some? && SafeToAttach(s.gateway.value)))
      && (p.outcome == Done && !IsTrue(p.conditions, ExecutionFailed) ==> IsTrue(p.conditions, Succeeded))
  {
    hide EnsureFinalizer, EnsureGateway, StageRouteName, RouteOf, SafeToAttach, Bindable;
    EnsureFinalizerEffect(s, stage, o);
    BindsExactly(s, stage, o);
    BindableSmooth(s, stage, o);
    var s1 := EnsureFinalizer(s, stage, o).cluster;
    ReadyExactly(s1, config.className, x.created, o);
  }

  lemma BindableSmooth(s: Cluster, stage: string, o: Oracle)
    requires o.rejected == {} && o.lost == {}
    ensures Bindable(s, stage, o) <==> stage in s.stages && (Guarded(s, stage) || !s.stages[stage].deleting)
  {
  }

  lemma ReadyExactly(s: Cluster, className: string, startedAt: int, o: Oracle)
    requires o.rejected == {} && o.lost == {}
    ensures
      var state := EnsureGateway(s, className, startedAt, o).state;
      state.Some? && (state.value.phase == Ready <==> s.gateway.Some? && SafeToAttach(s.gateway.value))
  {
    hide Provisioned;
  }

  /**
   * Progress of the cleanup: with no failing call a deleted Stage loses exactly its route and the cleanup finalizer. It
   * stays, otherwise unchanged, while other finalizers are left and is gone when there are none.
   */
  lemma CleansUp(s: Cluster, stage: string, o: Oracle)
    requires o.rejected == {} && o.lost == {} && Guarded(s, stage) && s.stages[stage].deleting
    ensures
      var (s', outcome) := CleanedUp(s, stage, o);
      && outcome == Done && s'.routes == s.routes - {StageRouteName(stage)}
      && s' == s.(routes := s'.routes, stages := s'.stages)
      && (stage in s'.stages <==> s.stages[stage].finalizers != {RouteCleanup})
      && (stage in s'.stages ==>
            s'.stages == s.stages[stage := s.stages[stage].(finalizers := s.stages[stage].finalizers - {RouteCleanup})])
      && (stage !in s'.stages ==> s'.stages == s.stages - {stage})
  {
    hide StageRouteName;
    assert s.stages[stage].finalizers == {RouteCleanup} <==> s.stages[stage].finalizers - {RouteCleanup} == {};
  }

  // ----- a run to both terminal conditions -----

  /** A provisioned Gateway with a cluster address, accepted or since rejected by its implementation. */
  function Provided(accepted: Status): Gateway {
    NewGateway(CLASS, true, 0).(statusAddresses := [StatusAddress("10.0.0.1", Some(ClusterOnly))],
                                conditions := map[Accepted := Condition(accepted, "")])
  }

  lemma ProvidedMeans()
    ensures Provisioned(Provided(True)) && SafeToAttach(Provided(True))
    ensures Provisioned(Provided(False)) && Rejected(Provided(False)) && !Exposed(Provided(False))
  {
  }

  lemma WaiterArrives(vd: VectorDeployment, rules: seq<Rule>, s: Cluster)
    requires rules != [] && "e" in s.executions && !IsTrue(s.executions["e"].conditions, ExecutionFailed)
    requires s.activations == map["a" := Activation("s", "v", "d")] && s.deployments == map["d" := vd]
    requires "s" in s.stages && s.stages["s"].active == None
    requires s.executions["e"].activation == "a" && s.executions["e"].config == Some(WaiterConfig())
    ensures Arrives(s, "e", Smooth(0), Rules(rules))
    ensures ParseConfig(s.executions["e"].config) == Some(GatewayConfig(DEFAULT_GATEWAY_NAME, "", CLASS, true))
  {
    hide ParseConfig, WaiterConfig;
    WaiterProvisions();
  }

  lemma WaiterFails(rules: seq<Rule>, s: Cluster)
    requires Arrives(s, "e", Smooth(0), Rules(rules)) && s.gateway == Some(Provided(False))
    requires ParseConfig(s.executions["e"].config) == Some(GatewayConfig(DEFAULT_GATEWAY_NAME, "", CLASS, true))
    requires Guarded(s, s.activations[s.executions["e"].activation].stage)
    ensures WillFail(s, "e", Smooth(0), Rules(rules))
  {
    hide ParseConfig, Arrives, Provided, Exposed, Rejected;
    ProvidedMeans();
  }

  /**
   * Such a run exists, for every deployment that compiles to a route: the execution succeeds on a safe Gateway, the
   * implementation rejects that Gateway, and the next Reconcile fails the execution that has succeeded.
   */
  lemma SucceededThenFailed(vd: VectorDeployment, rules: seq<Rule>) returns (states: seq<Cluster>, steps: seq<Step>)
    requires MayCompile("s", vd, Rules(rules)) && rules != [] && vd.name == "d"
    ensures Run(states, steps) && |steps| == 3 && Contradicts(states[3], "e")
  {
    hide MayCompile, Reconciled, WaiterConfig, ParseConfig, StageRouteName, SafeToAttach, Provided, Arrives, RouteWritten,
         WillFail;
    ProvidedMeans();
    var o := Smooth(0);
    var turn := Reconcile("e", o, Rules(rules));
    var s0 := Waiter(vd, map[], Some(Provided(True)), {CLASS});
    WaiterArrives(vd, rules, s0);
    SucceedsExactly(s0, "e", o, Rules(rules));
    ReconciledEffect(s0, "e", o, Rules(rules));
    var s1 := Reconciled(s0, "e", o, Rules(rules)).0;
    var s2 := s1.(gateway := Some(Provided(False)));
    assert "s" in s1.stages && s1.stages["s"].active == None && Guarded(s1, "s");
    WaiterArrives(vd, rules, s2);
    WaiterFails(rules, s2);
    FailsExactly(s2, "e", o, Rules(rules));
    ReconcileTerminal(s2, "e", o, Rules(rules));
    var s3 := Reconciled(s2, "e", o, Rules(rules)).0;
    states, steps := [s0, s1, s2, s3], [turn, Environment, turn];
  }
}
