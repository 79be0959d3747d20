/** What the deployment controllers do not promise, shown on runs they can have. */
module ArtifactDeploymentLimits {
  import opened Strings
  import opened Bags
  import opened Grouped
  import opened Conditions
  import opened DeploymentResults
  import opened RouteRules
  import opened ArtifactDeployments
  import opened ArtifactDeploymentRuns

  /** Flux has fetched and applied the one Kustomize resource and reports this about its health. */
  function Applied(health: Status, services: seq<Service>): Round {
    Round(1, KustomizeRound(true, true, [FluxCondition("Ready", True, "")],
                            [FluxCondition("Ready", True, ""), FluxCondition("Healthy", health, "")], true),
          Some(services))
  }

  lemma AppliedMaps(conditions: Statuses, health: Status, services: seq<Service>)
    ensures FluxMapped(conditions, Applied(health, services).flux)
            == conditions[ArtifactFetched := Condition(True, FromFlux(""))][ArtifactDeployed := Condition(True, FromFlux(""))]
                         [AppHealthy := Condition(health, FromFlux(""))]
  {
    var source, rollout := [FluxCondition("Ready", True, "")], [FluxCondition("Ready", True, ""), FluxCondition("Healthy", health, "")];
    assert source[0].typ == "Ready" && "Healthy"[0] == 'H' && "Ready"[0] == 'R';
    assert source[..0] == [] && rollout[..1] == source;
    assert MapFlux(conditions, SourceCondition, source) == conditions[ArtifactFetched := Condition(True, FromFlux(""))];
    var fetched := MapFlux(conditions, SourceCondition, source);
    assert MapFlux(fetched, KustomizationCondition, source) == fetched[ArtifactDeployed := Condition(True, FromFlux(""))];
  }

  /** Such a round publishes an exposable Service and makes a healthy deployment ready. */
  lemma AppliedRound(s: DeploymentStatus, health: Status, services: seq<Service>)
    requires Stalled !in s.conditions && FirstFailure(services).None? && MapServices(services).Some?
    ensures
      var s' := ReconcileDeployment(s, Applied(health, services));
      && s'.results == MapServices(services).value && Stalled !in s'.conditions
      && AppHealthy in s'.conditions && s'.conditions[AppHealthy].status == health
      && (IsTrue(s'.conditions, DeploymentReady) <==> IsTrue(s.conditions, DeploymentReady) || health == True)
  {
    hide FluxMapped, FirstFailure, MapServices;
    AppliedMaps(s.conditions, health, services);
  }

  lemma SingleService(service: Service)
    requires Exposable(service) && service.resultName != ""
    ensures FirstFailure([service]) == None && MapServices([service]) == Some([ResultOf(service)])
  {
    hide ResultOf, Exposure;
    assert Exposure(service) == None;
    assert [service][1..] == [];
    assert Collect(Published, [service]) == [ResultOf(service)];
  }

  /** Any exposable Service with a result name gets published alone. */
  lemma PublishedAlone(service: Service)
    requires Exposable(service) && service.resultName != ""
    ensures PublishedAtSomePoint([ResultOf(service)])
  {
    hide ReconcileDeployment, ResultOf, Exposable, FirstFailure, MapServices;
    SingleService(service);
    var round := Applied(True, [service]);
    AppliedRound(Fresh, True, [service]);
    var statuses, rounds := [Fresh, ReconcileDeployment(Fresh, round)], [round];
    assert Follows(statuses[0], rounds[0], statuses[1]);
    assert DeploymentRun(statuses, rounds) && statuses[1].results == [ResultOf(service)];
  }

  /** Ready stays True when Flux reports the app unhealthy. */
  lemma ReadyThoughUnhealthy() returns (statuses: seq<DeploymentStatus>, rounds: seq<Round>)
    ensures DeploymentRun(statuses, rounds) && |statuses| == 3
    ensures IsTrue(statuses[2].conditions, DeploymentReady)
    ensures AppHealthy in statuses[2].conditions && statuses[2].conditions[AppHealthy].status == False
  {
    hide ReconcileDeployment;
    rounds := [Applied(True, []), Applied(False, [])];
    var s1 := ReconcileDeployment(Fresh, rounds[0]);
    var s2 := ReconcileDeployment(s1, rounds[1]);
    AppliedRound(Fresh, True, []);
    AppliedRound(s1, False, []);
    statuses := [Fresh, s1, s2];
    assert Follows(statuses[0], rounds[0], statuses[1]) && Follows(statuses[1], rounds[1], statuses[2]);
  }

  // ----- what the router makes of it -----

  const HTTP := ServicePort("http", PROTOCOL_TCP, None, 80, IntVal(8080), 0)

  /** A Service of this name that publishes result "web", with or without a route. */
  function Web(name: string, exposedPort: string): Service {
    Service(name, "ns", "web", exposedPort, [HTTP])
  }

  lemma WebExposable(name: string, exposedPort: string)
    requires exposedPort == "" || exposedPort == "http"
    ensures Exposable(Web(name, exposedPort))
    ensures exposedPort == "http" ==> TargetOf(ResultOf(Web(name, exposedPort))) == Some(Target("web", name, 80))
    ensures exposedPort == "" ==> TargetOf(ResultOf(Web(name, exposedPort))) == None
  {
    hide ResultOf, TargetOf;
    assert FirstPort([HTTP], "http") == Some(HTTP);
    RouterReads(Web(name, exposedPort));
  }

  /** Result names are unique within a component only: two components may publish one name for different Services. */
  lemma NamesMayClash() returns (vd: VectorDeployment)
    ensures Assembled(vd) && !Unambiguous(vd)
  {
    hide ResultOf, TargetOf, Web, Exposable, PublishedAtSomePoint;
    var r1, r2 := ResultOf(Web("x", "http")), ResultOf(Web("y", "http"));
    WebExposable("x", "http");
    WebExposable("y", "http");
    WebNamed("x", "http");
    WebNamed("y", "http");
    PublishedAlone(Web("x", "http"));
    PublishedAlone(Web("y", "http"));
    vd := VectorDeployment("d", map["a" := [r1], "b" := [r2]]);
    assert "a"[0] != "b"[0] && "x"[0] != "y"[0];
    assert At(vd.results, "a", 0) && At(vd.results, "b", 0);
    assert vd.results["a"] == [r1] && vd.results["b"] == [r2];
  }

  lemma WebNamed(name: string, exposedPort: string)
    ensures Web(name, exposedPort).resultName != ""
  {
  }

  /** A published http-k8s-service result that selects no port gets no rule, in any compilation. */
  lemma UnexposedHasNoRule(stage: string) returns (vd: VectorDeployment)
    ensures Assembled(vd) && At(vd.results, "a", 0) && vd.results["a"][0].typ == TYPE_HTTP_K8S_SERVICE
    ensures forall c :: MayCompile(stage, vd, c) ==> c == Rules([])
  {
    hide TargetOf, Web, Exposable, PublishedAtSomePoint, MayCompile, Sound;
    WebExposable("x", "");
    WebNamed("x", "");
    PublishedAlone(Web("x", ""));
    vd := VectorDeployment("d", map["a" := [ResultOf(Web("x", ""))]]);
    forall c | MayCompile(stage, vd, c) ensures c == Rules([]) {
      PublishedResultsCompile(stage, vd, c);
      NoTargetsNoRules(stage, vd, c.rules);
    }
  }

  lemma NoTargetsNoRules(stage: string, vd: VectorDeployment, rules: seq<Rule>)
    requires MayCompile(stage, vd, Rules(rules))
    requires forall c, i :: At(vd.results, c, i) ==> TargetOf(vd.results[c][i]) == None
    ensures rules == []
  {
    hide TargetOf, Sound, SortedPicks;
    var order, ts :| SortedTargets(vd, order, ts) && rules == RulesFor(stage, vd.name, ts);
    if ts != [] {
      var c, i := PickOrigin(vd.results, TargetOf, NameOf, order, ts, 0);
    }
  }
}
