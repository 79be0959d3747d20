/**
 * How every Reconcile of an execution ends, told from what it finds: the table of outcomes, of the conditions it writes
 * and of the objects it leaves behind.
 */
module StageRouteEndings {
  import opened Strings
  import opened Conditions
  import opened DeploymentResults
  import opened RouteRules
  import opened Routing
  import opened RouterGateway
  import opened StageRoutes
  import opened StageRouteEffects
  import opened StageRouteRuns
  import opened StageRouteOutcomes

  // ----- stopping early -----

  /** A lookup fails, the configuration does not parse or the deployment does not compile: an error, and nothing changes. */
  lemma Stops(s: Cluster, e: string, o: Oracle, c: Compiled)
    requires e in s.executions && !IsTrue(s.executions[e].conditions, ExecutionFailed)
    requires Starts(s, e, o) ==> Supersession(s, s.activations[s.executions[e].activation], o) != Superseded
    requires !Activating(s, e, o) || c.Broken?
    ensures Reconciled(s, e, o, c) == (s, Error)
  {
    hide Supersession, ParseConfig;
  }

  /** An execution that is gone or has failed needs nothing. */
  lemma NothingToDo(s: Cluster, e: string, o: Oracle, c: Compiled)
    requires e in s.executions ==> IsTrue(s.executions[e].conditions, ExecutionFailed)
    ensures Reconciled(s, e, o, c) == (s, if Fails(o, GetExecution) then Error else Done)
  {
  }

  /**
   * The cleanup in full: only a deleted Stage that carries the finalizer is touched; a failing delete leaves its
   * finalizer, and every failing call is an error.
   */
  lemma CleanUpEnds(s: Cluster, stage: string, o: Oracle)
    ensures
      var (s', outcome) := CleanedUp(s, stage, o);
      if Fails(o, GetStage) then (s', outcome) == (s, Error)
      else if !(stage in s.stages && s.stages[stage].deleting && Guarded(s, stage)) then (s', outcome) == (s, Done)
      else
        && s'.routes == (if Takes(o, DeleteRoute) then s.routes - {StageRouteName(stage)} else s.routes)
        && (outcome == Done <==> !Fails(o, DeleteRoute) && !Fails(o, RemoveFinalizer)) && (outcome == Done || outcome == Error)
        && (Fails(o, DeleteRoute) || !Takes(o, RemoveFinalizer) ==> s'.stages == s.stages)
        && (!Fails(o, DeleteRoute) && Takes(o, RemoveFinalizer) ==> !Guarded(s', stage))
  {
    hide StageRouteName;
  }

  /** The conditions after a success: no progress pending, Succeeded True, everything else as it was. */
  predicate SucceededFrom(before: ExecutionStatus, after: ExecutionStatus) {
    after == (before - {InProgress})[Succeeded := Condition(True, ActivationSucceeded)]
  }

  /** The conditions of `e` become `after`, unless the patch that a change needs is rejected; `ok` says it reports no error. */
  ghost predicate StatusBecomes(s: Cluster, e: string, o: Oracle, s': Cluster, after: ExecutionStatus, ok: bool)
    requires e in s.executions
  {
    && s'.executions == (if after != s.executions[e].conditions && Takes(o, PatchStatus)
                         then s.executions[e := s.executions[e].(conditions := after)] else s.executions)
    && (ok <==> after == s.executions[e].conditions || !Fails(o, PatchStatus))
  }

  /** A superseded execution is marked succeeded and does nothing else. */
  lemma SupersededSucceeds(s: Cluster, e: string, o: Oracle, c: Compiled)
    requires Starts(s, e, o) && Supersession(s, s.activations[s.executions[e].activation], o) == Superseded
    ensures
      var (s', outcome) := Reconciled(s, e, o, c);
      var after := MarkSucceeded(s.executions[e].conditions);
      && SucceededFrom(s.executions[e].conditions, after)
      && s' == s.(executions := s'.executions)
      && StatusBecomes(s, e, o, s', after, outcome == Done) && (outcome == Done || outcome == Error)
  {
    hide Supersession;
  }

  // ----- nothing to route -----

  /**
   * A current execution whose deployment compiles to no rules deletes the stage's route and nothing else, and is then
   * marked succeeded; when the delete fails it reports an error and leaves its status alone.
   */
  lemma DropsExactly(s: Cluster, e: string, o: Oracle)
    requires Activating(s, e, o)
    ensures
      var (s', outcome) := Reconciled(s, e, o, Rules([]));
      var k := StageRouteName(s.activations[s.executions[e].activation].stage);
      && s' == s.(routes := s'.routes, executions := s'.executions)
      && s'.routes == (if Takes(o, DeleteRoute) then s.routes - {k} else s.routes)
      && (Fails(o, DeleteRoute) ==> outcome == Error && s'.executions == s.executions)
      && (!Fails(o, DeleteRoute) ==>
            && SucceededFrom(s.executions[e].conditions, MarkSucceeded(s.executions[e].conditions))
            && StatusBecomes(s, e, o, s', MarkSucceeded(s.executions[e].conditions), outcome == Done))
      && (outcome != Error ==>
            outcome == Done && k !in s'.routes && IsTrue(s'.executions[e].conditions, Succeeded))
  {
    hide Supersession, ParseConfig, StageRouteName;
  }

  // ----- the parent of a route -----

  /** The text of a configuration field, empty when it is absent or null. */
  function Setting(raw: Option<Raw>, key: string): string {
    match raw
    case Some(JsonText(Obj(fields))) => if key in fields && fields[key].Str? then fields[key].s else ""
    case _ => ""
  }

  /** A field that is neither a string nor null nor absent. */
  predicate Misfit(fields: map<string, Json>, key: string) {
    key in fields && !fields[key].Str? && !fields[key].Null?
  }

  /** Which configurations parse, which Gateway they name, and when they provision it, in terms of the JSON fields. */
  lemma ConfigMeans(raw: Option<Raw>)
    ensures ParseConfig(raw).None? <==>
            && raw.Some?
            && (raw.value.JsonText? ==>
                  && !raw.value.json.Null?
                  && (raw.value.json.Obj? ==>
                        || Misfit(raw.value.json.fields, "gatewayName") || Misfit(raw.value.json.fields, "gatewayNamespace")
                        || Misfit(raw.value.json.fields, "gatewayClassName")))
    ensures ParseConfig(raw).Some? ==>
              var config := ParseConfig(raw).value;
              && config.name == (if Setting(raw, "gatewayName") == "" then "konfidence-router" else Setting(raw, "gatewayName"))
              && config.namespace == Setting(raw, "gatewayNamespace") && config.className == Setting(raw, "gatewayClassName")
              && (config.provisions <==>
                    Setting(raw, "gatewayClassName") != "" && Setting(raw, "gatewayName") == "" && Setting(raw, "gatewayNamespace") == "")
  {
  }

  /** The route a Reconcile writes hangs on the Gateway its configuration names, in the namespace it names, with these rules. */
  lemma WrittenParent(s: Cluster, s': Cluster, stage: string, raw: Option<Raw>, rules: seq<Rule>)
    requires ParseConfig(raw).Some? && RouteWritten(s, s', stage, ParseConfig(raw).value, rules)
    ensures StageRouteName(stage) in s'.routes
    ensures
      var route := s'.routes[StageRouteName(stage)];
      && route.rules == rules
      && route.parentName == (if Setting(raw, "gatewayName") == "" then "konfidence-router" else Setting(raw, "gatewayName"))
      && route.parentNamespace == (if Setting(raw, "gatewayNamespace") == "" then None else Some(Setting(raw, "gatewayNamespace")))
  {
    hide ParseConfig, SafeToAttach, StageRouteName, Setting;
    ConfigMeans(raw);
  }

  // ----- waiting and failing -----

  /** A Gateway that is safe: nothing outside the cluster can reach it, in terms of its addresses and conditions. */
  lemma SafeMeans(gateway: Gateway)
    ensures SafeToAttach(gateway) <==>
            || !("konfidence.cloud/provisioned-by" in gateway.labels
                 && gateway.labels["konfidence.cloud/provisioned-by"] == "kubernetes-landscape-orchestrator")
            || (&& !(Accepted in gateway.conditions && gateway.conditions[Accepted].status == False)
                && |gateway.specAddresses| > 0 && |gateway.statusAddresses| > 0
                && (forall i :: 0 <= i < |gateway.specAddresses| ==> gateway.specAddresses[i] == ClusterOnly)
                && (forall i :: 0 <= i < |gateway.statusAddresses| ==> gateway.statusAddresses[i].routability == Some(ClusterOnly)))
  {
  }

  /** The Gateway step waits: a young Gateway without a usable address, a class missing for a while, or one just created. */
  predicate GatewayWaits(s: Cluster, className: string, startedAt: int, o: Oracle) {
    && !Fails(o, GetGateway)
    && (if s.gateway.Some? then
          && Provisioned(s.gateway.value) && RequestsClusterRoutability(s.gateway.value)
          && !Rejected(s.gateway.value) && !IsClusterRoutable(s.gateway.value) && !Reachable(s.gateway.value)
          && o.now - s.gateway.value.created <= READY_TIMEOUT
        else
          && !Fails(o, GetGatewayClass)
          && (if className !in s.classes then o.now - startedAt <= READY_TIMEOUT
              else !Fails(o, CreateGateway) && (o.racer.Some? || o.kept)))
  }

  /** Why it waits or fails. */
  function Cause(s: Cluster, className: string): Reason {
    match s.gateway
    case None => if className in s.classes then WaitingForClusterAddress else GatewayClassNotFound
    case Some(_) => WaitingForClusterAddress
  }

  function FailureCause(s: Cluster, className: string): Reason {
    match s.gateway
    case None => if className in s.classes then RoutabilityNotPersisted else GatewayClassNotFound
    case Some(gateway) =>
      if !RequestsClusterRoutability(gateway) then RoutabilityNotPersisted
      else if Rejected(gateway) then GatewayNotAccepted
      else if Reachable(gateway) then AddressNotClusterRoutable
      else GatewayNotReady
  }

  /** What the Gateway step leaves behind when it fails or waits. */
  ghost predicate GatewayLeft(s: Cluster, className: string, o: Oracle, after: Option<Gateway>) {
    match s.gateway
    case Some(gateway) => after == if Exposed(gateway) then None else s.gateway
    case None =>
      if className !in s.classes then after == None
      else if o.racer.Some? then after == Some(o.racer.value.(created := o.now))
      else if o.kept then
        && after.Some? && after.value.className == className && after.value.created == o.now && Provisioned(after.value)
        && RequestsClusterRoutability(after.value) && after.value.statusAddresses == [] && after.value.conditions == map[]
      else after == None
  }

  lemma FoundGatewayEnds(s: Cluster, className: string, startedAt: int, o: Oracle)
    requires s.gateway.Some?
    ensures
      var g := EnsureGateway(s, className, startedAt, o);
      && (g.state.Some? && g.state.value.phase == Pending <==> GatewayWaits(s, className, startedAt, o))
      && (GatewayWaits(s, className, startedAt, o) ==> g.state.value.reason == Cause(s, className))
      && (GatewayFails(s, className, startedAt, o) ==>
            g.state.Some? && g.state.value.phase == Failed && g.state.value.reason == FailureCause(s, className))
      && (GatewayWaits(s, className, startedAt, o) || GatewayFails(s, className, startedAt, o) ==>
            g.cluster == s.(gateway := g.cluster.gateway) && GatewayLeft(s, className, o, g.cluster.gateway))
  {
    hide Provisioned, RequestsClusterRoutability, Rejected, IsClusterRoutable;
  }

  lemma MissingGatewayEnds(s: Cluster, className: string, startedAt: int, o: Oracle)
    requires s.gateway.None?
    ensures
      var g := EnsureGateway(s, className, startedAt, o);
      && (g.state.Some? && g.state.value.phase == Pending <==> GatewayWaits(s, className, startedAt, o))
      && (GatewayWaits(s, className, startedAt, o) ==> g.state.value.reason == Cause(s, className))
      && (GatewayFails(s, className, startedAt, o) ==>
            g.state.Some? && g.state.value.phase == Failed && g.state.value.reason == FailureCause(s, className))
      && (GatewayWaits(s, className, startedAt, o) || GatewayFails(s, className, startedAt, o) ==>
            g.cluster == s.(gateway := g.cluster.gateway) && GatewayLeft(s, className, o, g.cluster.gateway))
  {
    hide Provisioned, RequestsClusterRoutability, NewGateway, Evaluate;
    if className in s.classes && o.racer.None? {
      CreatedEnds(s, className, startedAt, o);
    }
  }

  /** Creating the Gateway: it waits when its routability was kept, and is deleted and fails when not. */
  lemma CreatedEnds(s: Cluster, className: string, startedAt: int, o: Oracle)
    requires s.gateway.None? && className in s.classes && o.racer.None?
    ensures
      var g := CreateGatewayStep(s, className, startedAt, o);
      && (g.state.Some? && g.state.value.phase == Pending <==> !Fails(o, GetGatewayClass) && !Fails(o, CreateGateway) && o.kept)
      && (g.state.Some? && g.state.value.phase == Pending ==>
            && g.state.value.reason == WaitingForClusterAddress
            && g.cluster == s.(gateway := Some(NewGateway(className, true, o.now)))
            && GatewayLeft(s, className, o, g.cluster.gateway))
      && (!Fails(o, GetGatewayClass) && !Fails(o, CreateGateway) && !o.kept && !Fails(o, DeleteGateway) ==>
            g == Provision(s, Some(GatewayState(Failed, RoutabilityNotPersisted, true))))
  {
    hide Provisioned, RequestsClusterRoutability, NewGateway, Evaluate;
    NewGatewayMeans(className, o.kept, o.now);
    if !o.kept {
      NewGatewayFails(NewGateway(className, o.kept, o.now), o.now);
    }
  }

  /** A new Gateway is the operator's, has the class it was asked for, and asks for cluster addresses if the CRDs let it. */
  lemma NewGatewayMeans(className: string, kept: bool, now: int)
    ensures
      var gateway := NewGateway(className, kept, now);
      && gateway.className == className && gateway.created == now && Provisioned(gateway)
      && (RequestsClusterRoutability(gateway) <==> kept) && gateway.statusAddresses == [] && gateway.conditions == map[]
  {
    assert NewGateway(className, kept, now).specAddresses[0] == if kept then ClusterOnly else Unset;
  }

  lemma NewGatewayFails(gateway: Gateway, now: int)
    requires !RequestsClusterRoutability(gateway)
    ensures Evaluate(gateway, now) == GatewayState(Failed, RoutabilityNotPersisted, true)
  {
  }

  lemma GatewayEnds(s: Cluster, className: string, startedAt: int, o: Oracle)
    ensures
      var g := EnsureGateway(s, className, startedAt, o);
      && (g.state.Some? && g.state.value.phase == Pending <==> GatewayWaits(s, className, startedAt, o))
      && (GatewayWaits(s, className, startedAt, o) ==> g.state.value.reason == Cause(s, className))
      && (GatewayFails(s, className, startedAt, o) ==>
            g.state.Some? && g.state.value.phase == Failed && g.state.value.reason == FailureCause(s, className))
      && (GatewayWaits(s, className, startedAt, o) || GatewayFails(s, className, startedAt, o) ==>
            g.cluster == s.(gateway := g.cluster.gateway) && GatewayLeft(s, className, o, g.cluster.gateway))
  {
    hide EnsureGateway, GatewayWaits, GatewayFails, GatewayLeft, Cause, FailureCause;
    if s.gateway.Some? {
      FoundGatewayEnds(s, className, startedAt, o);
    } else {
      MissingGatewayEnds(s, className, startedAt, o);
    }
  }

  /** What a publishing Reconcile does when the Gateway step holds it up: its Stage is bound and no route is written. */
  lemma PublishHeld(s: Cluster, x: Execution, stage: string, config: GatewayConfig, rules: seq<Rule>, o: Oracle)
    requires config.provisions && Bindable(s, stage, o)
    requires GatewayWaits(s, config.className, x.created, o) || GatewayFails(s, config.className, x.created, o)
    ensures
      var p := Publish(s, x, stage, config, rules, o);
      && Guarded(p.cluster, stage) && Bound(s, p.cluster, stage) && p.cluster.routes == s.routes
      && p.cluster.executions == s.executions && GatewayLeft(s, config.className, o, p.cluster.gateway)
      && (GatewayWaits(s, config.className, x.created, o) ==>
            && p.outcome == Requeue(15)
            && p.conditions == x.conditions[InProgress := Condition(True, Cause(s, config.className))])
      && (!GatewayWaits(s, config.className, x.created, o) ==>
            && p.outcome == Done
            && p.conditions == (x.conditions - {InProgress})[ExecutionFailed := Condition(True, FailureCause(s, config.className))])
  {
    hide EnsureFinalizer, EnsureGateway, GatewayFails, GatewayWaits, GatewayLeft, Cause, FailureCause, Bindable, StageRouteName, RouteOf;
    EnsureFinalizerEffect(s, stage, o);
    BindsExactly(s, stage, o);
    var s1 := EnsureFinalizer(s, stage, o).cluster;
    SameEnds(s, s1, config.className, x.created, o);
    GatewayEnds(s1, config.className, x.created, o);
  }

  lemma SameEnds(s: Cluster, s1: Cluster, className: string, startedAt: int, o: Oracle)
    requires s1.gateway == s.gateway && s1.classes == s.classes
    ensures GatewayFails(s1, className, startedAt, o) <==> GatewayFails(s, className, startedAt, o)
    ensures GatewayWaits(s1, className, startedAt, o) <==> GatewayWaits(s, className, startedAt, o)
    ensures Cause(s1, className) == Cause(s, className) && FailureCause(s1, className) == FailureCause(s, className)
    ensures forall after :: GatewayLeft(s1, className, o, after) <==> GatewayLeft(s, className, o, after)
  {
  }

  /**
   * Held up by its Gateway, a Reconcile reports the cause: in progress and polled again while it waits, failed when there
   * is no point. A Gateway it created has the class of the configuration; one that is exposed is gone.
   */
  lemma HeldExactly(s: Cluster, e: string, o: Oracle, c: Compiled)
    requires Arrives(s, e, o, c)
    requires
      var x := s.executions[e];
      var config := ParseConfig(x.config).value;
      && config.provisions && Bindable(s, s.activations[x.activation].stage, o)
      && (GatewayWaits(s, config.className, x.created, o) || GatewayFails(s, config.className, x.created, o))
    ensures
      var (s', outcome) := Reconciled(s, e, o, c);
      var x := s.executions[e];
      var name := ParseConfig(x.config).value.className;
      var after := if GatewayWaits(s, name, x.created, o)
        then x.conditions[InProgress := Condition(True, Cause(s, name))]
        else (x.conditions - {InProgress})[ExecutionFailed := Condition(True, FailureCause(s, name))];
      && s'.routes == s.routes && GatewayLeft(s, name, o, s'.gateway)
      && StatusBecomes(s, e, o, s', after, outcome != Error)
      && (outcome != Error ==> outcome == (if GatewayWaits(s, name, x.created, o) then Requeue(15) else Done))
  {
    hide Publish, GatewayFails, GatewayWaits, GatewayLeft, Cause, FailureCause, Bindable, Supersession, ParseConfig, StageRouteName;
    var x := s.executions[e];
    PublishHeld(s, x, s.activations[x.activation].stage, ParseConfig(x.config).value, c.rules, o);
  }

  // ----- publishing -----

  /** Nothing stands in the way of the route: no Gateway to provision, or one that is found and safe. */
  predicate Open(s: Cluster, config: GatewayConfig, o: Oracle) {
    config.provisions ==> !Fails(o, GetGateway) && s.gateway.Some? && SafeToAttach(s.gateway.value)
  }

  lemma OpenExactly(s: Cluster, config: GatewayConfig, startedAt: int, o: Oracle)
    requires config.provisions
    ensures
      var g := EnsureGateway(s, config.className, startedAt, o);
      && (g.state.Some? && g.state.value.phase == Ready <==> Open(s, config, o))
      && (Open(s, config, o) ==> g.cluster == s)
  {
    hide Provisioned;
  }

  lemma PublishOpen(s: Cluster, x: Execution, stage: string, config: GatewayConfig, rules: seq<Rule>, o: Oracle)
    requires Bindable(s, stage, o) && Open(s, config, o)
    ensures
      var p := Publish(s, x, stage, config, rules, o);
      var route := RouteOf(config, rules);
      && Guarded(p.cluster, stage) && Bound(s, p.cluster, stage)
      && p.cluster == s.(stages := p.cluster.stages, routes := p.cluster.routes)
      && p.cluster.routes == (if Takes(o, ApplyRoute) then s.routes[StageRouteName(stage) := route] else s.routes)
      && (Fails(o, ApplyRoute) ==> p.outcome == Error && p.conditions == x.conditions)
      && (!Fails(o, ApplyRoute) ==> p.outcome == Done && p.conditions == MarkSucceeded(x.conditions))
  {
    hide EnsureFinalizer, EnsureGateway, Open, Bindable, StageRouteName, RouteOf, MarkSucceeded;
    EnsureFinalizerEffect(s, stage, o);
    BindsExactly(s, stage, o);
    var s1 := EnsureFinalizer(s, stage, o).cluster;
    SameOpen(s, s1, config, o);
    if config.provisions {
      OpenExactly(s1, config, x.created, o);
    }
  }

  lemma SameOpen(s: Cluster, s1: Cluster, config: GatewayConfig, o: Oracle)
    requires s1.gateway == s.gateway
    ensures Open(s1, config, o) <==> Open(s, config, o)
  {
  }

  /** With the way open, the route is written and the execution succeeds; a failed write is an error and leaves the status alone. */
  lemma WritesExactly(s: Cluster, e: string, o: Oracle, c: Compiled)
    requires Arrives(s, e, o, c) && Bindable(s, s.activations[s.executions[e].activation].stage, o)
    requires Open(s, ParseConfig(s.executions[e].config).value, o)
    ensures
      var (s', outcome) := Reconciled(s, e, o, c);
      var stage := s.activations[s.executions[e].activation].stage;
      var route := RouteOf(ParseConfig(s.executions[e].config).value, c.rules);
      && Guarded(s', stage) && s'.gateway == s.gateway
      && s'.routes == (if Takes(o, ApplyRoute) then s.routes[StageRouteName(stage) := route] else s.routes)
      && (Fails(o, ApplyRoute) ==> outcome == Error && s'.executions == s.executions)
      && (!Fails(o, ApplyRoute) ==>
            && SucceededFrom(s.executions[e].conditions, MarkSucceeded(s.executions[e].conditions))
            && StatusBecomes(s, e, o, s', MarkSucceeded(s.executions[e].conditions), outcome == Done))
  {
    hide Publish, Open, Bindable, Supersession, ParseConfig, StageRouteName, RouteOf;
    var x := s.executions[e];
    PublishOpen(s, x, s.activations[x.activation].stage, ParseConfig(x.config).value, c.rules, o);
  }

  /** In all other cases, a Stage that cannot be bound or a Gateway call that fails, it is an error: no route and no status. */
  lemma StuckExactly(s: Cluster, e: string, o: Oracle, c: Compiled)
    requires Arrives(s, e, o, c)
    requires
      var x := s.executions[e];
      var config := ParseConfig(x.config).value;
      || !Bindable(s, s.activations[x.activation].stage, o)
      || (&& config.provisions && !Open(s, config, o)
          && !GatewayWaits(s, config.className, x.created, o) && !GatewayFails(s, config.className, x.created, o))
    ensures
      var (s', outcome) := Reconciled(s, e, o, c);
      outcome == Error && s'.routes == s.routes && s'.executions == s.executions
  {
    hide Publish, Open, GatewayFails, GatewayWaits, Bindable, Supersession, ParseConfig, StageRouteName;
    var x := s.executions[e];
    PublishStuck(s, x, s.activations[x.activation].stage, ParseConfig(x.config).value, c.rules, o);
  }

  lemma PublishStuck(s: Cluster, x: Execution, stage: string, config: GatewayConfig, rules: seq<Rule>, o: Oracle)
    requires || !Bindable(s, stage, o)
             || (&& config.provisions && !Open(s, config, o)
                 && !GatewayWaits(s, config.className, x.created, o) && !GatewayFails(s, config.className, x.created, o))
    ensures
      var p := Publish(s, x, stage, config, rules, o);
      p.outcome == Error && p.cluster.routes == s.routes && p.cluster.executions == s.executions && p.conditions == x.conditions
  {
    hide EnsureFinalizer, EnsureGateway, Open, GatewayFails, GatewayWaits, Bindable, StageRouteName, RouteOf;
    EnsureFinalizerEffect(s, stage, o);
    BindsExactly(s, stage, o);
    var s1 := EnsureFinalizer(s, stage, o).cluster;
    SameOpen(s, s1, config, o);
    SameEnds(s, s1, config.className, x.created, o);
    if config.provisions {
      OpenExactly(s1, config, x.created, o);
      GatewayEnds(s1, config.className, x.created, o);
      GatewayFailsExactly(s1, config.className, x.created, o);
      EnsureGatewayEffect(s1, config.className, x.created, o);
    }
  }
}
