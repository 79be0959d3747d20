/**
 * The two stage-route controllers as the operator runs them: call by call against an API server whose objects they
 * update in place. Each method is tied to the step function it performs.
 */
module StageRouteControllers {
  import opened Strings
  import opened Conditions
  import opened RouteRules
  import opened Routing
  import opened RouterGateway
  import opened StageRoutes

  class Landscape {
    var stages: map<string, Stage>
    var versions: map<string, int>
    var activations: map<string, Activation>
    var deployments: map<string, VectorDeployment>
    var executions: map<string, Execution>
    var routes: map<string, Route>
    var gateway: Option<Gateway>
    var classes: set<string>

    constructor (s: Cluster)
      ensures Snapshot() == s
    {
      stages, versions, activations, deployments := s.stages, s.versions, s.activations, s.deployments;
      executions, routes, gateway, classes := s.executions, s.routes, s.gateway, s.classes;
    }

    function Snapshot(): Cluster
      reads this
    {
      Cluster(stages, versions, activations, deployments, executions, routes, gateway, classes)
    }

    /** isSuperseded */
    method IsSuperseded(a: Activation, o: Oracle) returns (verdict: Verdict)
      ensures verdict == Supersession(Snapshot(), a, o)
    {
      if Fails(o, GetStage) {
        return LookupFailed;
      }
      if a.stage !in stages {
        return Superseded;
      }
      var active := stages[a.stage].active;
      if active.None? || active.value == a.stageVersion {
        return Current;
      }
      if Fails(o, GetOwnVersion) {
        return LookupFailed;
      }
      if a.stageVersion !in versions {
        return Superseded;
      }
      if Fails(o, GetActiveVersion) {
        return LookupFailed;
      }
      if active.value !in versions {
        return Current;
      }
      verdict := if versions[a.stageVersion] < versions[active.value] then Superseded else Current;
    }

    /** ensureStageFinalizer */
    method EnsureStageFinalizer(stage: string, o: Oracle) returns (ok: bool)
      modifies this`stages
      ensures Attempt(Snapshot(), ok) == EnsureFinalizer(old(Snapshot()), stage, o)
    {
      if Fails(o, GetStageAgain) || stage !in stages {
        return false;
      }
      var found := stages[stage];
      if RouteCleanup in found.finalizers {
        return true;
      }
      if found.deleting {
        return false;
      }
      if Takes(o, AddFinalizer) {
        stages := stages[stage := found.(finalizers := found.finalizers + {RouteCleanup})];
      }
      ok := !Fails(o, AddFinalizer);
    }

    /** ensureRouterGateway */
    method EnsureRouterGateway(className: string, startedAt: int, o: Oracle) returns (state: Option<GatewayState>)
      modifies this`gateway
      ensures Provision(Snapshot(), state) == EnsureGateway(old(Snapshot()), className, startedAt, o)
    {
      if Fails(o, GetGateway) {
        return None;
      }
      if gateway.None? {
        state := CreateRouterGateway(className, startedAt, o);
        return;
      }
      if !Provisioned(gateway.value) {
        return Some(GatewayState(Ready, NoReason, false));
      }
      var evaluated := Evaluate(gateway.value, o.now);
      if evaluated.exposed {
        if Takes(o, DeleteGateway) {
          gateway := None;
        }
        if Fails(o, DeleteGateway) {
          return None;
        }
      }
      state := Some(evaluated);
    }

    /** createRouterGateway */
    method CreateRouterGateway(className: string, startedAt: int, o: Oracle) returns (state: Option<GatewayState>)
      requires gateway.None?
      modifies this`gateway
      ensures Provision(Snapshot(), state) == CreateGatewayStep(old(Snapshot()), className, startedAt, o)
    {
      if Fails(o, GetGatewayClass) {
        return None;
      }
      if className !in classes {
        return Some(MissingClass(startedAt, o.now));
      }
      var created := NewGateway(className, o.kept, o.now);
      var raced := o.racer.Some?;
      if raced {
        gateway := Some(o.racer.value.(created := o.now));
      } else if Takes(o, CreateGateway) {
        gateway := Some(created);
      }
      if Fails(o, CreateGateway) {
        return None;
      }
      if !raced && !RequestsClusterRoutability(created) {
        if Takes(o, DeleteGateway) {
          gateway := None;
        }
        if Fails(o, DeleteGateway) {
          return None;
        }
        return Some(Evaluate(created, o.now));
      }
      state := Some(GatewayState(Pending, WaitingForClusterAddress, false));
    }

    /** applyStageRoute */
    method ApplyStageRoute(stage: string, config: GatewayConfig, rules: seq<Rule>, o: Oracle) returns (ok: bool)
      modifies this`routes
      ensures ok == !Fails(o, ApplyRoute)
      ensures routes == if Takes(o, ApplyRoute)
                        then old(routes)[StageRouteName(stage) := RouteOf(config, rules)] else old(routes)
    {
      if Takes(o, ApplyRoute) {
        routes := routes[StageRouteName(stage) := RouteOf(config, rules)];
      }
      ok := !Fails(o, ApplyRoute);
    }

    /** The second half of reconcileActivationTaskExecution: finalizer, Gateway, route. */
    method PublishRoute(x: Execution, stage: string, config: GatewayConfig, rules: seq<Rule>, o: Oracle)
        returns (conditions: ExecutionStatus, outcome: Outcome)
      modifies this`stages, this`gateway, this`routes
      ensures Progress(Snapshot(), conditions, outcome) == Publish(old(Snapshot()), x, stage, config, rules, o)
    {
      hide EnsureFinalizer, EnsureGateway, StageRouteName, RouteOf;
      conditions, outcome := x.conditions, Error;
      var bound := EnsureStageFinalizer(stage, o);
      if !bound {
        return;
      }
      if config.provisions {
        var state := EnsureRouterGateway(config.className, x.created, o);
        if state.None? {
          return;
        }
        if state.value.phase == Pending {
          conditions := conditions[InProgress := Condition(True, state.value.reason)];
          outcome := Requeue(POLL_INTERVAL);
          return;
        }
        if state.value.phase == Failed {
          conditions := conditions - {InProgress};
          conditions := conditions[ExecutionFailed := Condition(True, state.value.reason)];
          outcome := Done;
          return;
        }
      }
      var applied := ApplyStageRoute(stage, config, rules, o);
      if !applied {
        return;
      }
      conditions := conditions - {InProgress};
      conditions := conditions[Succeeded := Condition(True, ActivationSucceeded)];
      outcome := Done;
    }

    /** reconcileActivationTaskExecution. The ghost result is the compilation the run saw, or would have seen. */
    method ReconcileActivationTaskExecution(x: Execution, o: Oracle)
        returns (conditions: ExecutionStatus, outcome: Outcome, ghost c: Compiled)
      modifies this`stages, this`gateway, this`routes
      ensures x.activation in old(activations) && old(activations)[x.activation].deployment in old(deployments) ==>
                MayCompile(old(activations)[x.activation].stage, old(deployments)[old(activations)[x.activation].deployment], c)
      ensures Progress(Snapshot(), conditions, outcome) == ReconcileExecution(old(Snapshot()), x, o, c)
    {
      hide Publish, Supersession, ParseConfig, MayCompile, StageRouteName;
      conditions, outcome := x.conditions, Error;
      c := Broken("");
      if x.activation in activations && activations[x.activation].deployment in deployments {
        ghost var va := activations[x.activation];
        c := SomeCompilation(va.stage, deployments[va.deployment]);
      }
      if IsTrue(conditions, ExecutionFailed) {
        outcome := Done;
        return;
      }
      if Fails(o, GetActivation) || x.activation !in activations {
        return;
      }
      var a := activations[x.activation];
      var verdict := IsSuperseded(a, o);
      if verdict == LookupFailed {
        return;
      }
      if verdict == Superseded {
        conditions := conditions - {InProgress};
        conditions := conditions[Succeeded := Condition(True, ActivationSucceeded)];
        outcome := Done;
        return;
      }
      var config := ParseConfig(x.config);
      if config.None? || Fails(o, GetDeployment) || a.deployment !in deployments {
        return;
      }
      var compiled := BuildRouteRules(a.stage, deployments[a.deployment]);
      c := compiled;
      if compiled.Broken? {
        return;
      }
      if |compiled.rules| == 0 {
        if Takes(o, DeleteRoute) {
          routes := routes - {StageRouteName(a.stage)};
        }
        if Fails(o, DeleteRoute) {
          return;
        }
        conditions := conditions - {InProgress};
        conditions := conditions[Succeeded := Condition(True, ActivationSucceeded)];
        outcome := Done;
        return;
      }
      conditions, outcome := PublishRoute(x, a.stage, config.value, compiled.rules, o);
    }

    /** Reconcile of an ActivationTaskExecution. */
    method Reconcile(e: string, o: Oracle) returns (outcome: Outcome, ghost c: Compiled)
      modifies this
      ensures CompiledFor(old(Snapshot()), e, c)
      ensures (Snapshot(), outcome) == Reconciled(old(Snapshot()), e, o, c)
    {
      hide ReconcileExecution, MayCompile;
      c := Broken("");
      if e in executions {
        var x := executions[e];
        if x.activation in activations && activations[x.activation].deployment in deployments {
          c := SomeCompilation(activations[x.activation].stage, deployments[activations[x.activation].deployment]);
        }
      }
      if Fails(o, GetExecution) {
        return Error, c;
      }
      if e !in executions {
        return Done, c;
      }
      var x := executions[e];
      var conditions;
      conditions, outcome, c := ReconcileActivationTaskExecution(x, o);
      if conditions != x.conditions {
        if Takes(o, PatchStatus) {
          executions := executions[e := x.(conditions := conditions)];
        }
        if Fails(o, PatchStatus) {
          outcome := Error;
        }
      }
    }

    /** Reconcile of a Stage by the cleanup controller. */
    method CleanUpStage(stage: string, o: Oracle) returns (outcome: Outcome)
      modifies this`stages, this`routes
      ensures (Snapshot(), outcome) == CleanedUp(old(Snapshot()), stage, o)
    {
      hide StageRouteName;
      if Fails(o, GetStage) {
        return Error;
      }
      if stage !in stages {
        return Done;
      }
      var found := stages[stage];
      if !found.deleting || RouteCleanup !in found.finalizers {
        return Done;
      }
      if Takes(o, DeleteRoute) {
        routes := routes - {StageRouteName(stage)};
      }
      if Fails(o, DeleteRoute) {
        return Error;
      }
      if Takes(o, RemoveFinalizer) {
        var left := found.finalizers - {RouteCleanup};
        if left == {} {
          stages := stages - {stage};
        } else {
          stages := stages[stage := found.(finalizers := left)];
        }
      }
      outcome := if Fails(o, RemoveFinalizer) then Error else Done;
    }
  }
}
