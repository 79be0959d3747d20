/** Whole runs of the stage-route protocol: both controllers and an environment take turns, one Reconcile at a time. */
module StageRouteRuns {
  import opened Strings
  import opened Conditions
  import opened RouteRules
  import opened Routing
  import opened RouterGateway
  import opened StageRoutes
  import opened StageRouteEffects

  datatype Step =
    | Reconcile(execution: string, oracle: Oracle, compiled: Compiled)
    | CleanUp(stage: string, oracle: Oracle)
    | Environment

  /**
   * Everybody else. Users, the API server, Flux and the Gateway implementation may do anything, except: routes and
   * the cleanup finalizer belong to the operator, an object with a finalizer is not removed, and an execution's
   * status is written by its controller only; its spec does not change either. A re-created execution has a new uid
   * and no conditions. A deployment is stored under its name.
   */
  ghost predicate EnvironmentMoves(s: Cluster, s': Cluster) {
    && s'.routes == s.routes
    && Filed(s')
    && (forall stage :: Guarded(s, stage) ==> Guarded(s', stage) && s'.stages[stage].uid == s.stages[stage].uid)
    && (forall e :: e in s'.executions ==>
          || s'.executions[e].conditions == map[]
          || (e in s.executions && s'.executions[e] == s.executions[e]))
    && (forall e :: e in s.executions && e in s'.executions && s.executions[e].uid == s'.executions[e].uid ==>
          s'.executions[e] == s.executions[e])
  }

  ghost predicate Filed(s: Cluster) {
    forall d :: d in s.deployments ==> s.deployments[d].name == d
  }

  ghost predicate Next(s: Cluster, step: Step, s': Cluster) {
    match step
    case Reconcile(e, o, c) => CompiledFor(s, e, c) && s' == Reconciled(s, e, o, c).0
    case CleanUp(stage, o) => s' == CleanedUp(s, stage, o).0
    case Environment => EnvironmentMoves(s, s')
  }

  /** A stretch of a run: `states[i]` moves to `states[i + 1]` by `steps[i]`. */
  ghost predicate Path(states: seq<Cluster>, steps: seq<Step>) {
    && |states| == |steps| + 1
    && forall i :: 0 <= i < |steps| ==> Next(states[i], steps[i], states[i + 1])
  }

  ghost predicate Initial(s: Cluster) {
    s.routes == map[] && Filed(s) && forall e :: e in s.executions ==> s.executions[e].conditions == map[]
  }

  ghost predicate Run(states: seq<Cluster>, steps: seq<Step>) {
    Path(states, steps) && Initial(states[0])
  }

  // ----- no orphan routes -----

  ghost predicate Owned(s: Cluster, k: string)
    requires k in s.routes
  {
    exists stage, vd ::
      k == StageRouteName(stage) && Guarded(s, stage) && MayCompile(stage, vd, Rules(s.routes[k].rules))
  }

  /** Every route belongs to a Stage that exists and carries the cleanup finalizer, and was compiled for that Stage. */
  ghost predicate NoOrphans(s: Cluster) {
    forall k :: k in s.routes ==> Owned(s, k)
  }

  lemma KeepsOwners(s: Cluster, s': Cluster)
    requires NoOrphans(s)
    requires forall stage :: Guarded(s, stage) ==> Guarded(s', stage)
    requires forall k :: k in s'.routes ==> k in s.routes && s'.routes[k] == s.routes[k]
    ensures NoOrphans(s')
  {
    hide MayCompile, StageRouteName;
    forall k | k in s'.routes ensures Owned(s', k) {
      assert Owned(s, k);
    }
  }

  lemma WrittenRouteOwned(s: Cluster, s': Cluster, a: Activation, config: GatewayConfig, rules: seq<Rule>, vd: VectorDeployment)
    requires NoOrphans(s) && Bound(s, s', a.stage) && RouteWritten(s, s', a.stage, config, rules)
    requires MayCompile(a.stage, vd, Rules(rules))
    ensures NoOrphans(s')
  {
    hide MayCompile, StageRouteName, SafeToAttach;
    forall k | k in s'.routes ensures Owned(s', k) {
      if k != StageRouteName(a.stage) {
        assert Owned(s, k);
      }
    }
  }

  lemma ReconcileKeepsOwners(s: Cluster, e: string, o: Oracle, c: Compiled)
    requires NoOrphans(s) && CompiledFor(s, e, c)
    ensures NoOrphans(Reconciled(s, e, o, c).0)
  {
    hide Reconciled, MayCompile, RouteWritten, Supersession, ParseConfig, Owned, StageRouteName;
    ReconciledEffect(s, e, o, c);
    var s' := Reconciled(s, e, o, c).0;
    if s'.(executions := s.executions) == s || s'.routes == s.routes {
      KeepsOwners(s, s');
    } else {
      var x := s.executions[e];
      var a := s.activations[x.activation];
      if c == Rules([]) {
        KeepsOwners(s, s');
      } else {
        WrittenRouteOwned(s, s', a, ParseConfig(x.config).value, c.rules, s.deployments[a.deployment]);
      }
    }
  }

  /** Cleanup deletes the route first and lets the finalizer go second. */
  lemma CleanUpKeepsOwners(s: Cluster, stage: string, o: Oracle)
    requires NoOrphans(s)
    ensures NoOrphans(CleanedUp(s, stage, o).0)
  {
    hide MayCompile, StageRouteName;
    var s' := CleanedUp(s, stage, o).0;
    forall k | k in s'.routes ensures Owned(s', k) {
      assert Owned(s, k);
    }
  }

  lemma NextKeepsOwners(s: Cluster, step: Step, s': Cluster)
    requires NoOrphans(s) && Next(s, step, s')
    ensures NoOrphans(s')
  {
    hide NoOrphans, Reconciled, CleanedUp, CompiledFor;
    match step
    case Reconcile(e, o, c) => ReconcileKeepsOwners(s, e, o, c);
    case CleanUp(stage, o) => CleanUpKeepsOwners(s, stage, o);
    case Environment => KeepsOwners(s, s');
  }

  lemma {:induction false} OwnersKept(states: seq<Cluster>, steps: seq<Step>, i: nat)
    requires Path(states, steps) && i < |states| && NoOrphans(states[0])
    ensures NoOrphans(states[i])
  {
    hide Next;
    if i > 0 {
      OwnersKept(states, steps, i - 1);
      NextKeepsOwners(states[i - 1], steps[i - 1], states[i]);
    }
  }

  // ----- who wrote a route -----

  /** Execution `e` activates deployment `vd` for `stage`. */
  ghost predicate Activates(s: Cluster, e: string, stage: string, vd: VectorDeployment) {
    && e in s.executions && s.executions[e].activation in s.activations
    && var va := s.activations[s.executions[e].activation];
       va.stage == stage && va.deployment in s.deployments && s.deployments[va.deployment] == vd && vd.name == va.deployment
  }

  /**
   * The route that `stage` has in state `i` was written by step `m`: the Reconcile of an execution that was not
   * superseded, from the deployment its activation named and that was stored at the time. It has not changed since.
   */
  ghost predicate WrittenBy(states: seq<Cluster>, steps: seq<Step>, i: nat, stage: string, m: nat, vd: VectorDeployment)
    requires |states| == |steps| + 1 && i < |states|
  {
    && m < i && steps[m].Reconcile? && Activates(states[m], steps[m].execution, stage, vd)
    && Supersession(states[m], states[m].activations[states[m].executions[steps[m].execution].activation], steps[m].oracle) == Current
    && Lasting(states, StageRouteName(stage), m + 1, i)
    && MayCompile(stage, vd, Rules(states[i].routes[StageRouteName(stage)].rules))
  }

  /** Route `k` is there in states `m` to `i` and does not change. */
  ghost predicate Lasting(states: seq<Cluster>, k: string, m: nat, i: nat)
    requires i < |states|
  {
    forall l :: m <= l <= i ==> k in states[l].routes && k in states[i].routes && states[l].routes[k] == states[i].routes[k]
  }

  /** The step that changed a route is such a Reconcile. */
  lemma StepWrites(s: Cluster, step: Step, s': Cluster, k: string) returns (stage: string, vd: VectorDeployment)
    requires Next(s, step, s') && Filed(s) && k in s'.routes && (k in s.routes ==> s'.routes[k] != s.routes[k])
    ensures step.Reconcile? && k == StageRouteName(stage) && Activates(s, step.execution, stage, vd)
    ensures Supersession(s, s.activations[s.executions[step.execution].activation], step.oracle) == Current
    ensures MayCompile(stage, vd, Rules(s'.routes[k].rules))
  {
    hide Reconciled, CleanedUp, MayCompile, Supersession, ParseConfig, StageRouteName, SafeToAttach;
    assert step.Reconcile? by {
      if step.CleanUp? {
        CleanUpFrame(s, step.stage, step.oracle);
      }
    }
    var e := step.execution;
    ReconciledEffect(s, e, step.oracle, step.compiled);
    var va := s.activations[s.executions[e].activation];
    stage, vd := va.stage, s.deployments[va.deployment];
  }

  lemma {:induction false} FiledAt(states: seq<Cluster>, steps: seq<Step>, i: nat)
    requires Run(states, steps) && i < |states|
    ensures Filed(states[i])
  {
    hide Reconciled, CleanedUp, CompiledFor;
    if i > 0 {
      FiledAt(states, steps, i - 1);
      assert Next(states[i - 1], steps[i - 1], states[i]);
      match steps[i - 1]
      case Reconcile(e, o, c) => ReconciledEffect(states[i - 1], e, o, c);
      case CleanUp(stage, o) => CleanUpFrame(states[i - 1], stage, o);
      case Environment =>
    }
  }

  /** Every route of a run has its writer. */
  lemma {:induction false} RouteWriter(states: seq<Cluster>, steps: seq<Step>, i: nat, k: string)
      returns (stage: string, m: nat, vd: VectorDeployment)
    requires Run(states, steps) && i < |states| && k in states[i].routes
    ensures k == StageRouteName(stage) && WrittenBy(states, steps, i, stage, m, vd)
  {
    hide Next, MayCompile, Supersession, StageRouteName, Activates;
    if k in states[i - 1].routes && states[i].routes[k] == states[i - 1].routes[k] {
      stage, m, vd := RouteWriter(states, steps, i - 1, k);
    } else {
      FiledAt(states, steps, i - 1);
      m := i - 1;
      stage, vd := StepWrites(states[m], steps[m], states[i], k);
    }
  }

  /**
   * No orphan routes: in every reachable state a stage's route exists only while the Stage exists with the cleanup
   * finalizer, whatever calls were rejected or lost on the way; and an earlier Reconcile of the run compiled it from
   * the deployment that its activation for that stage named.
   */
  lemma NoOrphanRoutes(states: seq<Cluster>, steps: seq<Step>, i: nat)
    requires Run(states, steps) && i < |states|
    ensures NoOrphans(states[i])
    ensures forall k :: k in states[i].routes ==>
              exists stage, m, vd :: k == StageRouteName(stage) && Guarded(states[i], stage) && WrittenBy(states, steps, i, stage, m, vd)
  {
    hide Next, WrittenBy, StageRouteName, MayCompile;
    OwnersKept(states, steps, i);
    forall k | k in states[i].routes
      ensures exists stage, m, vd :: k == StageRouteName(stage) && Guarded(states[i], stage) && WrittenBy(states, steps, i, stage, m, vd)
    {
      var stage, m, vd := RouteWriter(states, steps, i, k);
      assert Owned(states[i], k);
      OwnerIs(states[i], stage);
    }
  }

  lemma OwnerIs(s: Cluster, stage: string)
    requires StageRouteName(stage) in s.routes && Owned(s, StageRouteName(stage))
    ensures Guarded(s, stage)
  {
    hide MayCompile, StageRouteName;
    var st, d :|
      StageRouteName(stage) == StageRouteName(st) && Guarded(s, st) && MayCompile(st, d, Rules(s.routes[StageRouteName(stage)].rules));
    StageRouteNameInjective(stage, st);
  }

  /**
   * The bound of that result: one Reconcile is one step. The code takes no lock between binding the Stage and writing
   * the route, and a route written later is owned exactly when the Stage is still guarded at that moment.
   */
  lemma WriteNeedsGuard(s: Cluster, x: Execution, stage: string, route: Route, vd: VectorDeployment, o: Oracle)
    requires NoOrphans(s) && Takes(o, ApplyRoute) && MayCompile(stage, vd, Rules(route.rules))
    ensures NoOrphans(WriteRoute(s, x, stage, route, o).cluster) <==> Guarded(s, stage)
  {
    hide MayCompile, StageRouteName;
    var s' := WriteRoute(s, x, stage, route, o).cluster;
    var k := StageRouteName(stage);
    assert s'.routes[k] == route && s'.stages == s.stages;
    if Guarded(s, stage) {
      forall k' | k' in s'.routes ensures Owned(s', k') {
        if k' != k {
          assert Owned(s, k');
        }
      }
    } else if Owned(s', k) {
      var st, d :| k == StageRouteName(st) && Guarded(s', st) && MayCompile(st, d, Rules(s'.routes[k].rules));
      StageRouteNameInjective(stage, st);
    }
  }

  /** Such a moment exists: a cleanup that runs in between removes a Stage the Reconcile has just found guarded. */
  lemma CleanUpInBetween(s: Cluster, stage: string, o: Oracle)
    requires stage in s.stages && s.stages[stage].finalizers == {RouteCleanup} && s.stages[stage].deleting
    requires o.rejected == {} && o.lost == {}
    ensures EnsureFinalizer(s, stage, o) == Attempt(s, true)
    ensures !Guarded(CleanedUp(s, stage, o).0, stage)
  {
    hide StageRouteName;
    assert s.stages[stage].finalizers - {RouteCleanup} == {};
  }

  /**
   * Put together: a Reconcile that finds its Stage guarded, a cleanup that runs to its end in between, and the route
   * write that follows. The Stage is gone and its route stays behind.
   */
  lemma OrphanRace(s: Cluster, x: Execution, stage: string, route: Route, vd: VectorDeployment, o: Oracle)
    requires NoOrphans(s) && MayCompile(stage, vd, Rules(route.rules))
    requires stage in s.stages && s.stages[stage].finalizers == {RouteCleanup} && s.stages[stage].deleting
    requires o.rejected == {} && o.lost == {}
    ensures EnsureFinalizer(s, stage, o) == Attempt(s, true)
    ensures
      var s' := WriteRoute(CleanedUp(s, stage, o).0, x, stage, route, o).cluster;
      StageRouteName(stage) in s'.routes && stage !in s'.stages && !NoOrphans(s')
  {
    hide MayCompile, StageRouteName, NoOrphans;
    CleanUpInBetween(s, stage, o);
    CleanUpKeepsOwners(s, stage, o);
    WriteNeedsGuard(CleanedUp(s, stage, o).0, x, stage, route, vd, o);
  }

  // ----- execution status -----

  lemma CleanUpFrame(s: Cluster, stage: string, o: Oracle)
    ensures
      var s' := CleanedUp(s, stage, o).0;
      && s'.gateway == s.gateway && s'.executions == s.executions && Framed(s, s')
      && (|| s'.routes == s.routes
          || (&& stage in s.stages && s.stages[stage].deleting
              && s'.routes == s.routes - {StageRouteName(stage)}))
  {
    hide StageRouteName, DeleteStageRoute, ReleaseStage;
    var s1 := DeleteStageRoute(s, stage, o).cluster;
    assert s1 == s || s1 == s.(routes := s.routes - {StageRouteName(stage)}) by {
      DeleteStageRouteEffect(s, stage, o);
    }
    if stage in s.stages {
      ReleaseStageEffect(s1, stage, o);
    }
  }

  lemma DeleteStageRouteEffect(s: Cluster, stage: string, o: Oracle)
    ensures
      var s1 := DeleteStageRoute(s, stage, o).cluster;
      s1 == s || s1 == s.(routes := s.routes - {StageRouteName(stage)})
  {
    hide StageRouteName;
  }

  lemma ReleaseStageEffect(s: Cluster, stage: string, o: Oracle)
    requires stage in s.stages
    ensures var s1 := ReleaseStage(s, stage, o).cluster; s1 == s.(stages := s1.stages)
  {
  }

  lemma CleanUpStages(s: Cluster, stage: string, o: Oracle)
    ensures
      var s' := CleanedUp(s, stage, o).0;
      forall st :: st in s.stages && (st != stage || !s.stages[st].deleting) ==>
        st in s'.stages && s'.stages[st] == s.stages[st]
  {
    hide StageRouteName;
  }

  ghost predicate StatusSane(conditions: ExecutionStatus) {
    IsTrue(conditions, ExecutionFailed) ==> InProgress !in conditions
  }

  /** How an error-free Reconcile leaves its execution: waiting and requeued, failed, or succeeded. */
  ghost predicate Settled(conditions: ExecutionStatus, outcome: Outcome) {
    || (outcome == Requeue(POLL_INTERVAL) && IsTrue(conditions, InProgress) && !IsTrue(conditions, ExecutionFailed))
    || (outcome == Done && InProgress !in conditions && IsTrue(conditions, ExecutionFailed))
    || (outcome == Done && InProgress !in conditions && !IsTrue(conditions, ExecutionFailed) && IsTrue(conditions, Succeeded))
  }

  lemma ReconcileExecutionStatus(s: Cluster, x: Execution, o: Oracle, c: Compiled)
    requires StatusSane(x.conditions)
    ensures
      var p := ReconcileExecution(s, x, o, c);
      && StatusSane(p.conditions)
      && (p.outcome == Error ==> p.conditions == x.conditions)
      && (p.outcome != Error ==> Settled(p.conditions, p.outcome))
  {
    hide Supersession, ParseConfig, EnsureFinalizer, EnsureGateway, StageRouteName, RouteOf;
  }

  lemma ReconcileStatus(s: Cluster, e: string, o: Oracle, c: Compiled)
    requires e in s.executions && StatusSane(s.executions[e].conditions)
    ensures
      var (s', outcome) := Reconciled(s, e, o, c);
      && e in s'.executions && StatusSane(s'.executions[e].conditions)
      && (outcome != Error ==> Settled(s'.executions[e].conditions, outcome))
  {
    hide ReconcileExecution;
    ReconcileExecutionStatus(s, s.executions[e], o, c);
    ReconcileExecutionEffect(s, s.executions[e], o, c);
  }

  lemma {:induction false} StatusesSane(states: seq<Cluster>, steps: seq<Step>, i: nat)
    requires Run(states, steps) && i < |states|
    ensures forall e :: e in states[i].executions ==> StatusSane(states[i].executions[e].conditions)
  {
    hide Reconciled, CleanedUp, CompiledFor, StatusSane;
    assert StatusSane(map[]) by {
      SaneWhenFresh();
    }
    if i > 0 {
      StatusesSane(states, steps, i - 1);
      var s, s' := states[i - 1], states[i];
      assert Next(s, steps[i - 1], s');
      match steps[i - 1]
      case Reconcile(e, o, c) =>
        ReconciledEffect(s, e, o, c);
        if e in s.executions {
          ReconcileStatus(s, e, o, c);
        }
      case CleanUp(stage, o) => CleanUpFrame(s, stage, o);
      case Environment =>
    }
  }

  lemma SaneWhenFresh()
    ensures StatusSane(map[])
  {
  }

  /**
   * Execution status machine: in every reachable state Failed and InProgress are never both True, and every
   * error-free Reconcile ends waiting with a requeue, failed, or succeeded with InProgress gone; it requeues exactly
   * when InProgress is True.
   */
  lemma StatusMachine(states: seq<Cluster>, steps: seq<Step>, i: nat, e: string)
    requires Run(states, steps) && i < |states| && e in states[i].executions
    ensures !(IsTrue(states[i].executions[e].conditions, ExecutionFailed) && IsTrue(states[i].executions[e].conditions, InProgress))
    ensures i < |steps| && steps[i].Reconcile? && steps[i].execution == e ==>
              var outcome := Reconciled(states[i], e, steps[i].oracle, steps[i].compiled).1;
              && e in states[i + 1].executions
              && (outcome != Error ==> Settled(states[i + 1].executions[e].conditions, outcome))
              && (outcome != Error ==> (outcome.Requeue? <==> IsTrue(states[i + 1].executions[e].conditions, InProgress)))
  {
    hide Reconciled, CompiledFor, CleanedUp;
    StatusesSane(states, steps, i);
    if i < |steps| && steps[i].Reconcile? && steps[i].execution == e {
      assert Next(states[i], steps[i], states[i + 1]);
      ReconcileStatus(states[i], e, steps[i].oracle, steps[i].compiled);
    }
  }

  lemma FailedReconcile(s: Cluster, e: string, o: Oracle, c: Compiled)
    requires e in s.executions && IsTrue(s.executions[e].conditions, ExecutionFailed)
    ensures Reconciled(s, e, o, c).0 == s && !Reconciled(s, e, o, c).1.Requeue?
  {
  }

  /** Failed is absorbing: until the execution object is deleted nothing changes it, and its Reconciles change nothing. */
  lemma {:induction false} FailedIsAbsorbing(states: seq<Cluster>, steps: seq<Step>, e: string, i: nat, j: nat)
    requires Path(states, steps) && i <= j < |states|
    requires forall k :: i <= k <= j ==> e in states[k].executions
    requires forall k :: i <= k <= j ==> states[k].executions[e].uid == states[i].executions[e].uid
    requires IsTrue(states[i].executions[e].conditions, ExecutionFailed)
    ensures states[j].executions[e] == states[i].executions[e]
    ensures forall k :: i <= k < j && steps[k].Reconcile? && steps[k].execution == e ==> states[k + 1] == states[k]
  {
    hide Reconciled, CleanedUp, CompiledFor;
    if i < j {
      FailedIsAbsorbing(states, steps, e, i, j - 1);
      var s, s' := states[j - 1], states[j];
      assert Next(s, steps[j - 1], s');
      match steps[j - 1]
      case Reconcile(d, o, c) =>
        if d == e {
          FailedReconcile(s, e, o, c);
        } else {
          ReconciledEffect(s, d, o, c);
        }
      case CleanUp(stage, o) => CleanUpFrame(s, stage, o);
      case Environment =>
    }
  }

  // ----- the Gateway gate -----

  /**
   * Gateway gate: an execution that provisions the Gateway writes a route only onto an admin's Gateway or onto one
   * that was not rejected and whose requested and assigned addresses are all cluster-routable, and reports success
   * for a route, written anew or found equal, only then; a Reconcile that creates or deletes the Gateway writes no
   * route; only provisioning executions touch the Gateway, and never one without the operator's label.
   */
  lemma GatewayGate(states: seq<Cluster>, steps: seq<Step>, i: nat)
    requires Path(states, steps) && i < |steps| && !steps[i].Environment?
    ensures
      var s, s' := states[i], states[i + 1];
      && (s.gateway.Some? && !Provisioned(s.gateway.value) ==> s'.gateway == s.gateway)
      && (s'.gateway != s.gateway ==> s'.routes == s.routes && steps[i].Reconcile?)
      && (s'.gateway != s.gateway ==> Provisions(s, steps[i].execution))
      && (steps[i].Reconcile? && Provisions(s, steps[i].execution) ==>
            forall k :: k in s'.routes && (k in s.routes ==> s'.routes[k] != s.routes[k]) ==>
              s.gateway.Some? && SafeToAttach(s.gateway.value))
      && (steps[i].Reconcile? && Provisions(s, steps[i].execution) && Applies(s, steps[i].execution, steps[i].oracle, steps[i].compiled)
          ==> s.gateway.Some? && SafeToAttach(s.gateway.value))
  {
    hide Reconciled, CleanedUp, CompiledFor, Supersession, ParseConfig, RouteOf, StageRouteName, SafeToAttach, Provisioned, Applies;
    assert Next(states[i], steps[i], states[i + 1]);
    match steps[i]
    case Reconcile(e, o, c) =>
      ReconciledEffect(states[i], e, o, c);
      if Provisions(states[i], e) && Applies(states[i], e, o, c) {
        AppliesGated(states[i], e, o, c);
      }
    case CleanUp(stage, o) => CleanUpFrame(states[i], stage, o);
  }

  /** The Reconcile ends with a route in place: not superseded, rules to publish, and neither error, wait nor failure. */
  ghost predicate Applies(s: Cluster, e: string, o: Oracle, c: Compiled) {
    && e in s.executions && s.executions[e].activation in s.activations
    && Supersession(s, s.activations[s.executions[e].activation], o) == Current
    && c.Rules? && c.rules != []
    && var p := ReconcileExecution(s, s.executions[e], o, c);
       p.outcome == Done && !IsTrue(p.conditions, ExecutionFailed)
  }

  lemma AppliesGated(s: Cluster, e: string, o: Oracle, c: Compiled)
    requires Applies(s, e, o, c) && Provisions(s, e)
    ensures s.gateway.Some? && SafeToAttach(s.gateway.value)
  {
    hide Publish, Supersession, ParseConfig, SafeToAttach, StageRouteName, RouteOf;
    var x := s.executions[e];
    PublishEffect(s, x, s.activations[x.activation].stage, ParseConfig(x.config).value, c.rules, o);
  }

  ghost predicate Provisions(s: Cluster, e: string) {
    e in s.executions && ParseConfig(s.executions[e].config).Some? && ParseConfig(s.executions[e].config).value.provisions
  }
}
