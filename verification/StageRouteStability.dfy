/** Restarts and requests: the route an activation wrote stays, and what it means to a request in every reachable state. */
module StageRouteStability {
  import opened Strings
  import opened Grouped
  import opened Conditions
  import opened DeploymentResults
  import opened RouteRules
  import opened Routing
  import opened RouterGateway
  import opened StageRoutes
  import opened StageRouteEffects
  import opened StageRouteRuns

  /** Nobody but the operator writes routes, so a reachable state's routes are the table of deployments the run activated. */
  lemma ReachablePublishes(states: seq<Cluster>, steps: seq<Step>, i: nat, at: GatewayAt)
      returns (live: map<string, VectorDeployment>)
    requires Run(states, steps) && i < |states|
    ensures Publishes(states[i].routes, at, live)
    ensures forall stage :: stage in live ==> exists m :: WrittenBy(states, steps, i, stage, m, live[stage])
  {
    hide Run, MayCompile, StageRouteName, Attached, WrittenBy;
    assert |states| == |steps| + 1 by { RunLength(states, steps); }
    var s := states[i];
    var attached := set k | k in s.routes && Attached(s.routes[k], at);
    live := PublishedTable(states, steps, i, attached);
    forall k | k in s.routes && Attached(s.routes[k], at)
      ensures exists stage :: stage in live && k == StageRouteName(stage)
    {
      assert k in attached;
    }
    forall stage | stage in live ensures MayCompile(stage, live[stage], Rules(s.routes[StageRouteName(stage)].rules)) {
      var m :| WrittenBy(states, steps, i, stage, m, live[stage]);
      WriterCompiles(states, steps, i, stage, m, live[stage]);
    }
  }

  lemma RunLength(states: seq<Cluster>, steps: seq<Step>)
    requires Run(states, steps)
    ensures |states| == |steps| + 1
  {
  }

  lemma WriterCompiles(states: seq<Cluster>, steps: seq<Step>, i: nat, stage: string, m: nat, vd: VectorDeployment)
    requires |states| == |steps| + 1 && i < |states| && WrittenBy(states, steps, i, stage, m, vd)
    ensures StageRouteName(stage) in states[i].routes
    ensures MayCompile(stage, vd, Rules(states[i].routes[StageRouteName(stage)].rules))
  {
    hide MayCompile, StageRouteName, Activates, Supersession;
  }

  lemma {:induction false} PublishedTable(states: seq<Cluster>, steps: seq<Step>, i: nat, keys: set<string>)
      returns (live: map<string, VectorDeployment>)
    requires Run(states, steps) && i < |states| && keys <= states[i].routes.Keys
    ensures forall k :: k in keys ==> exists stage :: stage in live && k == StageRouteName(stage)
    ensures forall stage :: stage in live ==>
              StageRouteName(stage) in keys && exists m :: WrittenBy(states, steps, i, stage, m, live[stage])
  {
    hide Run, WrittenBy, StageRouteName;
    if keys == {} {
      live := map[];
    } else {
      var k :| k in keys;
      var rest := PublishedTable(states, steps, i, keys - {k});
      var stage, m, vd := RouteWriter(states, steps, i, k);
      live := rest[stage := vd];
      forall k' | k' in keys ensures exists st :: st in live && k' == StageRouteName(st) {
        if k' == k {
          assert stage in live;
        } else {
          assert k' in keys - {k};
          var st :| st in rest && k' == StageRouteName(st);
          assert st in live;
        }
      }
    }
  }

  /**
   * In every reachable state a request that a stage route serves asked for that very stage; it is forwarded to the
   * port of a result of the deployment that an earlier Reconcile of the run activated for that stage, with that
   * deployment's name as routing key and neither of the selecting fields.
   */
  lemma ReachableRouting(states: seq<Cluster>, steps: seq<Step>, i: nat, at: GatewayAt,
                         headers: seq<Header>, k: string, n: int)
      returns (stage: string, m: nat, vd: VectorDeployment, t: Target)
    requires Run(states, steps) && i < |states|
    requires Served(states[i].routes, at, headers, k, n)
    ensures FieldValue(headers, HEADER_STAGE) == Some(stage) && FieldValue(headers, HEADER_SERVICE) == Some(t.name)
    ensures k == StageRouteName(stage) && WrittenBy(states, steps, i, stage, m, vd)
    ensures exists c, j :: At(vd.results, c, j) && TargetOf(vd.results[c][j]) == Some(t)
    ensures
      var rule := states[i].routes[k].rules[n];
      var forwarded := ApplyFilters(headers, rule.filters);
      && rule.backends == [Backend(t.service, t.port)]
      && FieldValue(forwarded, HEADER_ROUTING_KEY) == Some(vd.name)
      && FieldValue(forwarded, HEADER_STAGE) == None && FieldValue(forwarded, HEADER_SERVICE) == None
  {
    hide Next, MayCompile, FieldValue, ApplyFilters, StageRouteName, FirstMatch, Activates, Supersession, TargetOf;
    stage, m, vd := RouteWriter(states, steps, i, k);
    t := ServedRow(vd, stage, states[i].routes[k].rules, headers, n);
    ForwardedFields(stage, vd.name, t, headers, HEADER_ROUTING_KEY);
    ForwardedFields(stage, vd.name, t, headers, HEADER_STAGE);
    ForwardedFields(stage, vd.name, t, headers, HEADER_SERVICE);
    HeaderNamesDiffer();
  }

  lemma HeaderNamesDiffer()
    ensures EqualFold(HEADER_ROUTING_KEY, HEADER_ROUTING_KEY)
    ensures EqualFold(HEADER_STAGE, HEADER_STAGE) && !EqualFold(HEADER_ROUTING_KEY, HEADER_STAGE)
    ensures EqualFold(HEADER_SERVICE, HEADER_SERVICE) && !EqualFold(HEADER_ROUTING_KEY, HEADER_SERVICE)
  {
    assert |HEADER_ROUTING_KEY| == 24 && |HEADER_STAGE| == 18 && |HEADER_SERVICE| == 20;
  }

  // ----- restart stability -----

  ghost predicate StrictlyOlder(s: Cluster, version: string, a: string)
    requires a in s.versions
  {
    version != a && (version in s.versions ==> s.versions[version] < s.versions[a])
  }

  /** An execution that would write `route` if it wrote one: same Gateway, and a deployment that compiles to its rules. */
  ghost predicate WouldWrite(s: Cluster, x: Execution, va: Activation, route: Route) {
    && (ParseConfig(x.config).Some? ==> RouteOf(ParseConfig(x.config).value, route.rules) == route)
    && (va.deployment in s.deployments ==>
          && Unambiguous(s.deployments[va.deployment])
          && MayCompile(va.stage, s.deployments[va.deployment], Rules(route.rules)))
  }

  ghost predicate Agrees(s: Cluster, stage: string, a: string, route: Route, e: string)
    requires a in s.versions
  {
    e in s.executions && s.executions[e].activation in s.activations
    && s.activations[s.executions[e].activation].stage == stage ==>
      var x, va := s.executions[e], s.activations[s.executions[e].activation];
      StrictlyOlder(s, va.stageVersion, a) || WouldWrite(s, x, va, route)
  }

  /** `a` is active for `stage`, every other version is strictly older, and all of a's executions want `route`. */
  ghost predicate Won(s: Cluster, stage: string, a: string, route: Route) {
    && stage in s.stages && !s.stages[stage].deleting && s.stages[stage].active == Some(a) && a in s.versions
    && route.rules != []
    && forall e :: Agrees(s, stage, a, route, e)
  }

  ghost predicate Stable(s: Cluster, stage: string, a: string, route: Route) {
    && Won(s, stage, a, route)
    && StageRouteName(stage) in s.routes && s.routes[StageRouteName(stage)] == route
  }

  /** The environment leaves this stage, the versions, the activations and the deployments alone; Gateways may come and go. */
  ghost predicate QuietMoves(s: Cluster, s': Cluster, stage: string) {
    && EnvironmentMoves(s, s')
    && s'.versions == s.versions && s'.activations == s.activations && s'.deployments == s.deployments
    && (stage in s.stages ==> stage in s'.stages && s'.stages[stage] == s.stages[stage])
    && (forall e :: e in s'.executions ==>
          && e in s.executions && s'.executions[e].activation == s.executions[e].activation
          && s'.executions[e].config == s.executions[e].config)
  }

  lemma WonFramed(s: Cluster, s': Cluster, stage: string, a: string, route: Route)
    requires Won(s, stage, a, route)
    requires s'.versions == s.versions && s'.activations == s.activations && s'.deployments == s.deployments
    requires stage in s'.stages && s'.stages[stage].(finalizers := s.stages[stage].finalizers) == s.stages[stage]
    requires forall e :: e in s'.executions ==>
               && e in s.executions && s'.executions[e].activation == s.executions[e].activation
               && s'.executions[e].config == s.executions[e].config
    ensures Won(s', stage, a, route)
  {
    hide MayCompile, Unambiguous, ParseConfig, RouteOf;
    forall e ensures Agrees(s', stage, a, route, e) {
      assert Agrees(s, stage, a, route, e);
    }
  }

  /** The only route a Reconcile can write for a won stage is the one it already has. */
  lemma WinnerRewrites(s: Cluster, e: string, o: Oracle, c: Compiled, stage: string, a: string, route: Route)
    requires Won(s, stage, a, route) && CompiledFor(s, e, c)
    requires e in s.executions && s.executions[e].activation in s.activations
    requires
      var va := s.activations[s.executions[e].activation];
      va.stage == stage && Supersession(s, va, o) == Current && va.deployment in s.deployments
    ensures c == Rules(route.rules)
    ensures ParseConfig(s.executions[e].config).Some? ==>
              RouteOf(ParseConfig(s.executions[e].config).value, route.rules) == route
  {
    hide MayCompile, Unambiguous, ParseConfig, RouteOf;
    var va := s.activations[s.executions[e].activation];
    var vd := s.deployments[va.deployment];
    assert Agrees(s, stage, a, route, e);
    CompileVerdict(stage, vd);
    if c.Rules? {
      UnambiguousCompilesOnce(stage, vd, c.rules, route.rules);
    }
  }

  lemma ReconcileKeepsStable(s: Cluster, e: string, o: Oracle, c: Compiled, stage: string, a: string, route: Route)
    requires Stable(s, stage, a, route) && CompiledFor(s, e, c)
    ensures Stable(Reconciled(s, e, o, c).0, stage, a, route)
  {
    hide Reconciled, MayCompile, Supersession, ParseConfig, RouteOf, StageRouteName, CompiledFor, Agrees, SafeToAttach;
    ReconciledEffect(s, e, o, c);
    var s' := Reconciled(s, e, o, c).0;
    WonFramed(s, s', stage, a, route);
    if s'.routes != s.routes {
      var va := s.activations[s.executions[e].activation];
      if va.stage == stage {
        WinnerRewrites(s, e, o, c, stage, a, route);
      } else if StageRouteName(va.stage) == StageRouteName(stage) {
        StageRouteNameInjective(va.stage, stage);
      }
    }
  }

  lemma CleanUpKeepsStable(s: Cluster, st: string, o: Oracle, stage: string, a: string, route: Route)
    requires Stable(s, stage, a, route)
    ensures Stable(CleanedUp(s, st, o).0, stage, a, route)
  {
    hide CleanedUp, StageRouteName, Agrees;
    var s' := CleanedUp(s, st, o).0;
    CleanUpFrame(s, st, o);
    CleanUpStages(s, st, o);
    WonFramed(s, s', stage, a, route);
    if StageRouteName(st) == StageRouteName(stage) {
      StageRouteNameInjective(st, stage);
    }
  }

  /** What an error-free, unfailed Reconcile of the active version's execution has done. */
  lemma AppliedRoute(s: Cluster, e: string, o: Oracle, c: Compiled, s': Cluster)
    requires e in s.executions && s.executions[e].activation in s.activations
    requires
      var va := s.activations[s.executions[e].activation];
      va.stage in s.stages && s.stages[va.stage].active == Some(va.stageVersion)
    requires Reconciled(s, e, o, c) == (s', Done)
    requires e in s'.executions && !IsTrue(s'.executions[e].conditions, ExecutionFailed)
    ensures Supersession(s, s.activations[s.executions[e].activation], o) == Current
    ensures c.Rules? && ParseConfig(s.executions[e].config).Some?
    ensures c.rules != [] ==>
              RouteWritten(s, s', s.activations[s.executions[e].activation].stage,
                           ParseConfig(s.executions[e].config).value, c.rules)
  {
    hide Publish, DropRoute, ParseConfig, RouteOf, StageRouteName, SafeToAttach;
    var x := s.executions[e];
    var va := s.activations[x.activation];
    ReconcileExecutionEffect(s, x, o, c);
    if ParseConfig(x.config).Some? && c.Rules? {
      PublishEffect(s, x, va.stage, ParseConfig(x.config).value, c.rules, o);
    }
  }

  /** A successful activation of the active version leaves the stage stable. */
  lemma ApplyStabilises(s: Cluster, e: string, o: Oracle, c: Compiled, s': Cluster, va: Activation, route: Route)
    requires CompiledFor(s, e, c) && e in s.executions && s.executions[e].activation in s.activations
    requires va == s.activations[s.executions[e].activation] && va.deployment in s.deployments
    requires Won(s, va.stage, va.stageVersion, route)
    requires Reconciled(s, e, o, c) == (s', Done)
    requires e in s'.executions && !IsTrue(s'.executions[e].conditions, ExecutionFailed)
    ensures Stable(s', va.stage, va.stageVersion, route)
  {
    hide Reconciled, MayCompile, Supersession, ParseConfig, RouteOf, StageRouteName, CompiledFor, Agrees, SafeToAttach;
    AppliedRoute(s, e, o, c, s');
    WinnerRewrites(s, e, o, c, va.stage, va.stageVersion, route);
    ReconciledEffect(s, e, o, c);
    WonFramed(s, s', va.stage, va.stageVersion, route);
  }

  /**
   * Restart stability: once the active version's route is in place, any finite mix of re-reconciles of any executions
   * in any order, cleanups, Gateway changes and failing calls leaves exactly that route.
   */
  lemma {:induction false} RestartStability(states: seq<Cluster>, steps: seq<Step>, stage: string, a: string, route: Route, i: nat)
    requires Path(states, steps) && i < |states|
    requires forall j :: 0 <= j < |steps| && steps[j].Environment? ==> QuietMoves(states[j], states[j + 1], stage)
    requires Stable(states[0], stage, a, route)
    ensures Stable(states[i], stage, a, route)
  {
    hide Reconciled, CleanedUp, CompiledFor, Agrees;
    if i > 0 {
      RestartStability(states, steps, stage, a, route, i - 1);
      var s, s' := states[i - 1], states[i];
      assert Next(s, steps[i - 1], s');
      match steps[i - 1]
      case Reconcile(e, o, c) => ReconcileKeepsStable(s, e, o, c, stage, a, route);
      case CleanUp(st, o) => CleanUpKeepsStable(s, st, o, stage, a, route);
      case Environment => WonFramed(s, s', stage, a, route);
    }
  }

  // ----- what a stable stage serves -----

  /** The request asks for this stage, whatever service it names. */
  predicate AsksFor(headers: seq<Header>, stage: string) {
    FieldValue(headers, HEADER_STAGE) == Some(stage)
  }

  /** `t` is the target of a result of `vd`. */
  ghost predicate Row(vd: VectorDeployment, t: Target) {
    exists c, i :: At(vd.results, c, i) && TargetOf(vd.results[c][i]) == Some(t)
  }

  /** Requests for `stage` are looked up in the table of `vd`: each row is served by its rule, and nothing else is. */
  ghost predicate LooksUp(s: Cluster, at: GatewayAt, stage: string, vd: VectorDeployment,
                          headers: seq<Header>) {
    && (forall t: Target :: Row(vd, t) && Selects(headers, stage, t.name) ==>
          exists n :: ServesRow(s, at, stage, vd, headers, n, t))
    && (forall k, n :: Served(s.routes, at, headers, k, n) ==>
          k == StageRouteName(stage) && exists t: Target :: Row(vd, t) && ServesRow(s, at, stage, vd, headers, n, t))
  }

  ghost predicate ServesRow(s: Cluster, at: GatewayAt, stage: string, vd: VectorDeployment,
                            headers: seq<Header>, n: int, t: Target) {
    && Served(s.routes, at, headers, StageRouteName(stage), n) && Selects(headers, stage, t.name)
    && s.routes[StageRouteName(stage)].rules[n] == RuleFor(stage, vd.name, t)
  }

  lemma ServesEachRow(s: Cluster, at: GatewayAt, stage: string, route: Route, vd: VectorDeployment,
                      headers: seq<Header>, t: Target) returns (n: nat)
    requires StageRouteName(stage) in s.routes && s.routes[StageRouteName(stage)] == route && Attached(route, at)
    requires MayCompile(stage, vd, Rules(route.rules)) && Unambiguous(vd)
    requires Row(vd, t) && Selects(headers, stage, t.name)
    ensures ServesRow(s, at, stage, vd, headers, n, t)
  {
    hide MayCompile, StageRouteName, TargetOf, FieldValue, FirstMatch, Unambiguous, Attached, RuleFor;
    n := RowServed(vd, stage, route.rules, headers, t);
    var t' := ServedRow(vd, stage, route.rules, headers, n);
    assert StageRouteName(stage) in s.routes;
    EntryUnique(map[stage := vd], stage, t, t');
  }

  lemma ServesOnlyRows(s: Cluster, at: GatewayAt, stage: string, vd: VectorDeployment,
                       headers: seq<Header>, k: string, n: int) returns (t: Target)
    requires NoOrphans(s) && StageRouteName(stage) in s.routes
    requires MayCompile(stage, vd, Rules(s.routes[StageRouteName(stage)].rules))
    requires AsksFor(headers, stage) && Served(s.routes, at, headers, k, n)
    ensures k == StageRouteName(stage) && Row(vd, t) && ServesRow(s, at, stage, vd, headers, n, t)
  {
    hide MayCompile, StageRouteName, TargetOf, FieldValue, FirstMatch, Attached, RuleFor;
    assert Owned(s, k);
    var st, d :| k == StageRouteName(st) && Guarded(s, st) && MayCompile(st, d, Rules(s.routes[k].rules));
    var t' := ServedRow(d, st, s.routes[k].rules, headers, n);
    assert st == stage;
    t := ServedRow(vd, stage, s.routes[k].rules, headers, n);
  }

  /** The deployment that an execution for the active version activates. */
  ghost predicate Winner(s: Cluster, stage: string, a: string, vd: VectorDeployment) {
    exists e :: Activates(s, e, stage, vd) && s.activations[s.executions[e].activation].stageVersion == a
  }

  lemma WinnerCompiles(s: Cluster, stage: string, a: string, route: Route, vd: VectorDeployment)
    requires Won(s, stage, a, route) && Winner(s, stage, a, vd)
    ensures MayCompile(stage, vd, Rules(route.rules)) && Unambiguous(vd)
  {
    hide MayCompile, Unambiguous, ParseConfig, RouteOf;
    var e :| Activates(s, e, stage, vd) && s.activations[s.executions[e].activation].stageVersion == a;
    assert Agrees(s, stage, a, route, e);
  }

  /**
   * Restarts do not show in the traffic: once the active version's route is in place, after any mix of re-reconciles,
   * cleanups, Gateway changes and failing calls a request for the stage is looked up in the deployment of the active
   * version, and served by nothing else.
   */
  lemma RestartServes(states: seq<Cluster>, steps: seq<Step>, stage: string, a: string, route: Route, vd: VectorDeployment,
                      i: nat, at: GatewayAt, headers: seq<Header>)
    requires Path(states, steps) && i < |states| && NoOrphans(states[0])
    requires forall j :: 0 <= j < |steps| && steps[j].Environment? ==> QuietMoves(states[j], states[j + 1], stage)
    requires Stable(states[0], stage, a, route) && Winner(states[0], stage, a, vd)
    requires Attached(route, at) && AsksFor(headers, stage)
    ensures LooksUp(states[i], at, stage, vd, headers)
  {
    hide Next, QuietMoves, MayCompile, StageRouteName, FieldValue, Served, Attached, Unambiguous, NoOrphans, ServesRow, Row, Winner;
    RestartStability(states, steps, stage, a, route, i);
    OwnersKept(states, steps, i);
    WinnerCompiles(states[0], stage, a, route, vd);
    var s := states[i];
    forall t: Target | Row(vd, t) && Selects(headers, stage, t.name)
      ensures exists n :: ServesRow(s, at, stage, vd, headers, n, t)
    {
      var n := ServesEachRow(s, at, stage, route, vd, headers, t);
    }
    forall k, n | Served(s.routes, at, headers, k, n)
      ensures k == StageRouteName(stage) && exists t: Target :: Row(vd, t) && ServesRow(s, at, stage, vd, headers, n, t)
    {
      var t := ServesOnlyRows(s, at, stage, vd, headers, k, n);
    }
  }
}
