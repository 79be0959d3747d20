/** Runs of the deployment controllers, and the contract between the results they publish and the router that reads them. */
module ArtifactDeploymentRuns {
  import opened Strings
  import opened Bags
  import opened Grouped
  import opened Conditions
  import opened DeploymentResults
  import opened RouteRules
  import opened ArtifactDeployments

  const Fresh := DeploymentStatus(map[], [])

  /** Any rounds of either controller in any order; a rejected status patch leaves the stored status as it was. */
  ghost predicate DeploymentRun(statuses: seq<DeploymentStatus>, rounds: seq<Round>) {
    && |statuses| == |rounds| + 1 && statuses[0] == Fresh
    && forall i :: 0 <= i < |rounds| ==> Follows(statuses[i], rounds[i], statuses[i + 1])
  }

  ghost predicate Follows(s: DeploymentStatus, r: Round, s': DeploymentStatus) {
    s' == s || s' == ReconcileDeployment(s, r)
  }

  /** A recorded exposure failure: nothing published, not created, not ready, stalled. */
  ghost predicate Shut(s: DeploymentStatus) {
    && s.results == []
    && ResultCreated in s.conditions && s.conditions[ResultCreated].status == False
    && DeploymentReady in s.conditions && s.conditions[DeploymentReady].status == False
    && IsTrue(s.conditions, Stalled)
  }

  /** The result was made from a Service whose exposed port, if it names one, is a TCP port. */
  ghost predicate FromService(result: DeploymentResult) {
    exists service :: Exposable(service) && service.resultName != "" && result == ResultOf(service)
  }

  ghost predicate Sane(s: DeploymentStatus) {
    && (IsTrue(s.conditions, DeploymentReady) ==> IsTrue(s.conditions, ResultCreated))
    && (Stalled in s.conditions ==> HasExposureFailure(s.conditions) && Shut(s))
    && (forall i :: 0 <= i < |s.results| ==> FromService(s.results[i]))
    && DistinctBy(ResultName, s.results)
  }

  /** Flux mapping touches the fetched, deployed and healthy conditions only. */
  lemma {:induction false} MapFluxFrame(conditions: Statuses, mapping: string -> Option<DeploymentCondition>, flux: seq<FluxCondition>)
    requires FluxOnly(mapping)
    ensures Unmoved(conditions, MapFlux(conditions, mapping, flux))
  {
    if flux != [] {
      MapFluxFrame(conditions, mapping, flux[..|flux| - 1]);
    }
  }

  ghost predicate Unmoved(c: Statuses, c': Statuses) {
    forall typ :: typ in {ResultCreated, DeploymentReady, Stalled} ==>
      (typ in c <==> typ in c') && (typ in c ==> c[typ] == c'[typ])
  }

  lemma FluxMappedFrame(conditions: Statuses, round: FluxRound)
    ensures Unmoved(conditions, FluxMapped(conditions, round))
  {
    hide MapFlux, FluxReady;
    assert FluxOnly(SourceCondition) && FluxOnly(ReleaseCondition) && FluxOnly(KustomizationCondition);
    match round
    case HelmRound(_, _, _, chart, release) =>
      if chart.Some? {
        MapFluxFrame(conditions, SourceCondition, chart.value);
        MapFluxFrame(MapFlux(conditions, SourceCondition, chart.value), ReleaseCondition, release);
      }
    case KustomizeRound(_, _, repository, kustomization, _) =>
      MapFluxFrame(conditions, SourceCondition, repository);
      MapFluxFrame(MapFlux(conditions, SourceCondition, repository), KustomizationCondition, kustomization);
  }

  lemma SaneUnmoved(s: DeploymentStatus, c: Statuses)
    requires Sane(s) && Unmoved(s.conditions, c)
    ensures Sane(DeploymentStatus(c, s.results))
  {
    hide FromService;
    assert forall typ :: typ in {ResultCreated, DeploymentReady, Stalled} ==> (typ in s.conditions <==> typ in c);
    assert ResultCreated in {ResultCreated, DeploymentReady, Stalled};
    assert DeploymentReady in {ResultCreated, DeploymentReady, Stalled};
    assert Stalled in {ResultCreated, DeploymentReady, Stalled};
  }

  lemma {:induction false} NoFailureAllExposable(services: seq<Service>)
    ensures FirstFailure(services).None? <==> All(Exposable, services)
    ensures FirstFailure(services).Some? ==> FirstFailure(services).value in {ExposePortNotFound, ExposePortUnsupportedProtocol}
  {
    if services != [] {
      NoFailureAllExposable(services[1..]);
      assert All(Exposable, services) ==> All(Exposable, services[1..]);
      assert forall i :: 1 <= i < |services| ==> services[i] == services[1..][i - 1];
    }
  }

  lemma PublishedFromServices(services: seq<Service>)
    requires All(Exposable, services)
    ensures forall i :: 0 <= i < |Collect(Published, services)| ==> FromService(Collect(Published, services)[i])
  {
    hide Exposable, ResultOf;
    forall i | 0 <= i < |Collect(Published, services)| ensures FromService(Collect(Published, services)[i]) {
      var k := CollectMember(Published, services, i);
      assert Exposable(services[k]);
    }
  }

  lemma PublishSane(s: DeploymentStatus, services: Option<seq<Service>>)
    requires Sane(s)
    ensures Sane(PublishResults(s, services))
  {
    hide FromService, FirstFailure, Published;
    if services.Some? {
      NoFailureAllExposable(services.value);
      if FirstFailure(services.value).None? {
        PublishedFromServices(services.value);
      }
    }
  }

  lemma RoundSane(s: DeploymentStatus, r: Round)
    requires Sane(s)
    ensures Sane(ReconcileDeployment(s, r))
  {
    hide FromService, FluxMapped, PublishResults;
    FluxMappedFrame(s.conditions, r.flux);
    var s1 := if r.matches == 1 then s.(conditions := FluxMapped(s.conditions, r.flux)) else s;
    SaneUnmoved(s, FluxMapped(s.conditions, r.flux));
    PublishSane(s1, r.services);
  }

  lemma {:induction false} RunSane(statuses: seq<DeploymentStatus>, rounds: seq<Round>, i: nat)
    requires DeploymentRun(statuses, rounds) && i < |statuses|
    ensures Sane(statuses[i])
  {
    hide ReconcileDeployment, Sane;
    if i == 0 {
      FreshSane();
    } else {
      RunSane(statuses, rounds, i - 1);
      assert Follows(statuses[i - 1], rounds[i - 1], statuses[i]);
      RoundSane(statuses[i - 1], rounds[i - 1]);
    }
  }

  lemma FreshSane()
    ensures Sane(Fresh)
  {
  }

  /**
   * Deployment status machine: in every reachable state Ready implies that results were created and that there is no
   * exposure stall; a recorded exposure failure leaves nothing published, Created and Ready False and Stalled True.
   */
  lemma DeploymentStatusMachine(statuses: seq<DeploymentStatus>, rounds: seq<Round>, i: nat)
    requires DeploymentRun(statuses, rounds) && i < |statuses|
    ensures IsTrue(statuses[i].conditions, DeploymentReady) ==>
              IsTrue(statuses[i].conditions, ResultCreated) && !HasExposureFailure(statuses[i].conditions)
    ensures HasExposureFailure(statuses[i].conditions) ==> Shut(statuses[i])
  {
    RunSane(statuses, rounds, i);
  }

  lemma ShutRound(s: DeploymentStatus, r: Round)
    requires Sane(s) && HasExposureFailure(s.conditions)
    ensures
      var s' := ReconcileDeployment(s, r);
      HasExposureFailure(s'.conditions) && Shut(s') && s'.conditions[Stalled] == s.conditions[Stalled]
  {
    hide FluxMapped, FromService, FirstFailure, MapServices;
    FluxMappedFrame(s.conditions, r.flux);
    assert ResultCreated in {ResultCreated, DeploymentReady, Stalled};
    assert DeploymentReady in {ResultCreated, DeploymentReady, Stalled};
    assert Stalled in {ResultCreated, DeploymentReady, Stalled};
  }

  /** Once an exposure failure is recorded, it stays recorded, with its reason. */
  lemma {:induction false} ExposureFailureIsFinal(statuses: seq<DeploymentStatus>, rounds: seq<Round>, i: nat, j: nat)
    requires DeploymentRun(statuses, rounds) && i <= j < |statuses|
    requires HasExposureFailure(statuses[i].conditions)
    ensures HasExposureFailure(statuses[j].conditions) && Shut(statuses[j])
    ensures statuses[j].conditions[Stalled] == statuses[i].conditions[Stalled]
  {
    hide ReconcileDeployment, Sane;
    RunSane(statuses, rounds, j);
    if i == j {
      DeploymentStatusMachine(statuses, rounds, i);
    } else {
      ExposureFailureIsFinal(statuses, rounds, i, j - 1);
      RunSane(statuses, rounds, j - 1);
      assert Follows(statuses[j - 1], rounds[j - 1], statuses[j]);
      ShutRound(statuses[j - 1], rounds[j - 1]);
    }
  }

  // ----- readiness -----

  /** The conditions after the Flux part of a round. */
  function Mapped(s: DeploymentStatus, r: Round): Statuses {
    if r.matches == 1 then FluxMapped(s.conditions, r.flux) else s.conditions
  }

  /** The round gets as far as looking at the Services. */
  ghost predicate Looks(s: DeploymentStatus, r: Round) {
    r.matches <= 1 && !HasExposureFailure(s.conditions) && IsTrue(Mapped(s, r), ArtifactDeployed) && r.services.Some?
  }

  /** A Service fails validation. */
  ghost predicate Invalid(s: DeploymentStatus, r: Round) {
    Looks(s, r) && FirstFailure(r.services.value).Some?
  }

  ghost predicate Creates(s: DeploymentStatus, r: Round) {
    Looks(s, r) && FirstFailure(r.services.value).None? && MapServices(r.services.value).Some?
  }

  /** The round finds the app healthy and its results created, now or before. */
  ghost predicate Grants(s: DeploymentStatus, r: Round) {
    r.matches <= 1 && IsTrue(Mapped(s, r), AppHealthy) && (Creates(s, r) || IsTrue(s.conditions, ResultCreated))
  }

  /** What a round does to Ready and Stalled, from the old status and the round's inputs. */
  lemma RoundReady(s: DeploymentStatus, r: Round)
    requires Sane(s)
    ensures IsTrue(ReconcileDeployment(s, r).conditions, DeploymentReady) <==>
            r.matches <= 1 && !Invalid(s, r) && (IsTrue(s.conditions, DeploymentReady) || Grants(s, r))
    ensures IsTrue(ReconcileDeployment(s, r).conditions, Stalled) <==> IsTrue(s.conditions, Stalled) || Invalid(s, r)
  {
    hide FluxMapped, FromService, FirstFailure, MapServices;
    FluxMappedFrame(s.conditions, r.flux);
    assert ResultCreated in {ResultCreated, DeploymentReady, Stalled};
    assert DeploymentReady in {ResultCreated, DeploymentReady, Stalled};
    assert Stalled in {ResultCreated, DeploymentReady, Stalled};
  }

  /** Round `j` took effect: its status patch was not rejected. */
  ghost predicate TookEffect(statuses: seq<DeploymentStatus>, rounds: seq<Round>, j: nat)
    requires |statuses| == |rounds| + 1 && j < |rounds|
  {
    statuses[j + 1] == ReconcileDeployment(statuses[j], rounds[j])
  }

  /** Round `j` took effect and found an invalid Service. */
  ghost predicate StallsAt(statuses: seq<DeploymentStatus>, rounds: seq<Round>, j: nat)
    requires |statuses| == |rounds| + 1
  {
    j < |rounds| && TookEffect(statuses, rounds, j) && Invalid(statuses[j], rounds[j])
  }

  lemma StalledStep(statuses: seq<DeploymentStatus>, rounds: seq<Round>, i: nat)
    requires DeploymentRun(statuses, rounds) && i < |rounds|
    ensures IsTrue(statuses[i + 1].conditions, Stalled) <==>
            IsTrue(statuses[i].conditions, Stalled) || StallsAt(statuses, rounds, i)
  {
    hide ReconcileDeployment, Sane, Invalid, Grants;
    RunSane(statuses, rounds, i);
    RoundReady(statuses[i], rounds[i]);
    assert Follows(statuses[i], rounds[i], statuses[i + 1]);
  }

  /** A deployment is stalled exactly when some earlier round took effect and found an invalid Service. */
  lemma {:induction false} StalledExactly(statuses: seq<DeploymentStatus>, rounds: seq<Round>, i: nat)
    requires DeploymentRun(statuses, rounds) && i < |statuses|
    ensures IsTrue(statuses[i].conditions, Stalled) <==> exists j :: 0 <= j < i && StallsAt(statuses, rounds, j)
  {
    hide Follows, StallsAt;
    if i > 0 {
      StalledExactly(statuses, rounds, i - 1);
      StalledStep(statuses, rounds, i - 1);
    }
  }

  /** Round `j` granted Ready, and no round between it and state `i` refused the deployment for its many resources. */
  ghost predicate GrantedAt(statuses: seq<DeploymentStatus>, rounds: seq<Round>, i: nat, j: nat)
    requires |statuses| == |rounds| + 1 && i < |statuses|
  {
    && j < i && TookEffect(statuses, rounds, j) && Grants(statuses[j], rounds[j])
    && forall l :: j < l < i && rounds[l].matches > 1 ==> !TookEffect(statuses, rounds, l)
  }

  lemma {:induction false} ReadyIfGranted(statuses: seq<DeploymentStatus>, rounds: seq<Round>, i: nat, j: nat)
    requires DeploymentRun(statuses, rounds) && i < |statuses| && GrantedAt(statuses, rounds, i, j)
    requires !IsTrue(statuses[i].conditions, Stalled)
    ensures IsTrue(statuses[i].conditions, DeploymentReady)
  {
    hide ReconcileDeployment, Sane, Grants, Invalid;
    RunSane(statuses, rounds, i - 1);
    RoundReady(statuses[i - 1], rounds[i - 1]);
    assert Follows(statuses[i - 1], rounds[i - 1], statuses[i]);
    if j < i - 1 {
      ReadyIfGranted(statuses, rounds, i - 1, j);
    } else {
      assert TookEffect(statuses, rounds, j);
      GrantsOnce(statuses[j], rounds[j]);
    }
  }

  lemma GrantsOnce(s: DeploymentStatus, r: Round)
    requires Grants(s, r)
    ensures r.matches <= 1
  {
  }

  lemma {:induction false} GrantedIfReady(statuses: seq<DeploymentStatus>, rounds: seq<Round>, i: nat) returns (j: nat)
    requires DeploymentRun(statuses, rounds) && i < |statuses| && IsTrue(statuses[i].conditions, DeploymentReady)
    ensures GrantedAt(statuses, rounds, i, j)
  {
    hide ReconcileDeployment, Sane, Grants, Invalid;
    RunSane(statuses, rounds, i - 1);
    RoundReady(statuses[i - 1], rounds[i - 1]);
    assert Follows(statuses[i - 1], rounds[i - 1], statuses[i]);
    if IsTrue(statuses[i - 1].conditions, DeploymentReady) {
      j := GrantedIfReady(statuses, rounds, i - 1);
    } else {
      j := i - 1;
    }
  }

  /**
   * Ready and health over runs: Ready is True exactly when nothing is stalled and some round found the app healthy with
   * its results created, and no later round was refused. It does not follow the app's health afterwards.
   */
  lemma ReadyWasGranted(statuses: seq<DeploymentStatus>, rounds: seq<Round>, i: nat)
    requires DeploymentRun(statuses, rounds) && i < |statuses|
    ensures IsTrue(statuses[i].conditions, DeploymentReady) <==>
            !IsTrue(statuses[i].conditions, Stalled) && exists j :: GrantedAt(statuses, rounds, i, j)
  {
    hide DeploymentRun, GrantedAt;
    assert |statuses| == |rounds| + 1 by { RunLength(statuses, rounds); }
    RunSane(statuses, rounds, i);
    if IsTrue(statuses[i].conditions, DeploymentReady) {
      var j := GrantedIfReady(statuses, rounds, i);
    }
    forall j | GrantedAt(statuses, rounds, i, j) && !IsTrue(statuses[i].conditions, Stalled)
      ensures IsTrue(statuses[i].conditions, DeploymentReady)
    {
      ReadyIfGranted(statuses, rounds, i, j);
    }
  }

  lemma RunLength(statuses: seq<DeploymentStatus>, rounds: seq<Round>)
    requires DeploymentRun(statuses, rounds)
    ensures |statuses| == |rounds| + 1
  {
  }

  // ----- the contract with the router -----

  /** What the router makes of a published result: the first port of the exposed name, by number. */
  lemma RouterReads(service: Service)
    requires Exposable(service) && service.resultName != ""
    ensures KeepsContract(ResultOf(service))
    ensures TargetOf(ResultOf(service)) ==
            if service.exposedPort == "" then None
            else Some(Target(service.resultName, service.name, FirstPort(service.ports, service.exposedPort).value.port))
  {
    hide EncodeServiceSpec;
    ServiceSpecRoundTrip(ServiceSpec(service.namespace, service.name, service.ports, service.exposedPort));
  }

  /** A VectorDeployment whose components carry what their ArtifactDeployments published, at whatever moment. */
  ghost predicate Assembled(vd: VectorDeployment) {
    forall c :: c in vd.results ==> PublishedAtSomePoint(vd.results[c])
  }

  ghost predicate PublishedAtSomePoint(results: seq<DeploymentResult>) {
    exists statuses: seq<DeploymentStatus>, rounds, i ::
      DeploymentRun(statuses, rounds) && 0 <= i < |statuses| && statuses[i].results == results
  }

  lemma AssembledFromServices(vd: VectorDeployment, c: string, i: int) returns (service: Service)
    requires Assembled(vd) && At(vd.results, c, i)
    ensures Exposable(service) && service.resultName != "" && vd.results[c][i] == ResultOf(service)
  {
    hide Exposable, ResultOf, DeploymentRun;
    assert PublishedAtSomePoint(vd.results[c]);
    var statuses: seq<DeploymentStatus>, rounds, k :|
      DeploymentRun(statuses, rounds) && 0 <= k < |statuses| && statuses[k].results == vd.results[c];
    RunSane(statuses, rounds, k);
    assert FromService(statuses[k].results[i]);
    service :| Exposable(service) && service.resultName != "" && vd.results[c][i] == ResultOf(service);
  }

  /** The result asks for a route. */
  function Selecting(result: DeploymentResult): Option<DeploymentResult> {
    if result.typ == TYPE_HTTP_K8S_SERVICE && SelectsPort(result) then Some(result) else None
  }

  lemma SelectingReads(service: Service)
    requires Exposable(service) && service.resultName != ""
    ensures Selecting(ResultOf(service)).Some? <==> TargetOf(ResultOf(service)).Some?
  {
    hide EncodeServiceSpec;
    ServiceSpecRoundTrip(ServiceSpec(service.namespace, service.name, service.ports, service.exposedPort));
  }

  /**
   * Producer/consumer contract: whatever moment the results were published at, the router never rejects a
   * VectorDeployment assembled from them, and emits exactly one rule per result that selects a port. Within a
   * component the results are distinct by name (they share their type).
   */
  lemma PublishedResultsCompile(stage: string, vd: VectorDeployment, c: Compiled)
    requires Assembled(vd) && MayCompile(stage, vd, c)
    ensures c.Rules? && Sound(vd)
    ensures forall component :: component in vd.results ==> DistinctBy(ResultName, vd.results[component])
    ensures exists order :: Enumerates(order, vd.results.Keys)
                            && |c.rules| == |Collect(Selecting, InOrder(vd.results, order))|
  {
    hide KeepsContract, TargetOf, Selecting, ResultOf, Exposable, Assembled, DeploymentRun, SortedPicks;
    assert Sound(vd) by {
      forall g, i | At(vd.results, g, i) ensures KeepsContract(vd.results[g][i]) {
        var service := AssembledFromServices(vd, g, i);
        RouterReads(service);
      }
    }
    ComponentsDistinct(vd);
    CompileVerdict(stage, vd);
    OneRulePerSelection(stage, vd, c.rules);
  }

  lemma ComponentsDistinct(vd: VectorDeployment)
    requires Assembled(vd)
    ensures forall c :: c in vd.results ==> DistinctBy(ResultName, vd.results[c])
  {
    hide DeploymentRun, FromService;
    forall c | c in vd.results ensures DistinctBy(ResultName, vd.results[c]) {
      var statuses: seq<DeploymentStatus>, rounds, k :|
      DeploymentRun(statuses, rounds) && 0 <= k < |statuses| && statuses[k].results == vd.results[c];
      RunSane(statuses, rounds, k);
    }
  }

  lemma OneRulePerSelection(stage: string, vd: VectorDeployment, rules: seq<Rule>)
    requires Assembled(vd) && MayCompile(stage, vd, Rules(rules))
    ensures exists order :: Enumerates(order, vd.results.Keys)
                            && |rules| == |Collect(Selecting, InOrder(vd.results, order))|
  {
    hide KeepsContract, TargetOf, Selecting, ResultOf, Exposable, Assembled, DeploymentRun;
    var order, ts :| SortedTargets(vd, order, ts) && rules == RulesFor(stage, vd.name, ts);
    var results := InOrder(vd.results, order);
    forall i | 0 <= i < |results| ensures TargetOf(results[i]).Some? <==> Selecting(results[i]).Some? {
      var g, k := InOrderMember(vd.results, order, i);
      var service := AssembledFromServices(vd, g, k);
      SelectingReads(service);
    }
    CollectSameLength(TargetOf, Selecting, results);
    assert |ts| == |multiset(ts)| == |multiset(Collect(TargetOf, results))| == |Collect(TargetOf, results)|;
  }

  /** The rule that routes the result of `service` to its exposed port. */
  ghost predicate Routed(stage: string, vd: VectorDeployment, service: Service, rule: Rule) {
    && service.exposedPort != "" && FirstPort(service.ports, service.exposedPort).Some?
    && rule == RuleFor(stage, vd.name, Target(service.resultName, service.name,
                                              FirstPort(service.ports, service.exposedPort).value.port))
  }

  /** Result `i` of `component` is what `service` published. */
  ghost predicate Origin(vd: VectorDeployment, component: string, i: int, service: Service) {
    At(vd.results, component, i) && Exposable(service) && service.resultName != "" && vd.results[component][i] == ResultOf(service)
  }

  ghost predicate Explained(stage: string, vd: VectorDeployment, rule: Rule) {
    exists component, i, service: Service :: Origin(vd, component, i, service) && Routed(stage, vd, service, rule)
  }

  lemma RoutedExactly(stage: string, vd: VectorDeployment, service: Service, t: Target)
    requires Exposable(service) && service.resultName != "" && TargetOf(ResultOf(service)) == Some(t)
    ensures Routed(stage, vd, service, RuleFor(stage, vd.name, t))
  {
    hide ResultOf, TargetOf, RuleFor;
    RouterReads(service);
  }

  /** Every rule routes to the first port of the exposed name of a published Service, and every such Service has its rule. */
  lemma RulesMeanPorts(stage: string, vd: VectorDeployment, rules: seq<Rule>)
    requires Assembled(vd) && MayCompile(stage, vd, Rules(rules))
    ensures forall n :: 0 <= n < |rules| ==> Explained(stage, vd, rules[n])
    ensures forall component, i, service: Service :: Origin(vd, component, i, service) && service.exposedPort != "" ==>
              exists n :: 0 <= n < |rules| && Routed(stage, vd, service, rules[n])
  {
    hide Origin, Routed, Assembled, MayCompile;
    forall n | 0 <= n < |rules| ensures Explained(stage, vd, rules[n]) {
      var component, i, service := RuleOrigin(stage, vd, rules, n);
      assert Origin(vd, component, i, service) && Routed(stage, vd, service, rules[n]);
    }
    forall component, i, service: Service | Origin(vd, component, i, service) && service.exposedPort != ""
      ensures exists n :: 0 <= n < |rules| && Routed(stage, vd, service, rules[n])
    {
      var n := OriginRule(stage, vd, rules, component, i, service);
    }
  }

  lemma RuleOrigin(stage: string, vd: VectorDeployment, rules: seq<Rule>, n: nat) returns (component: string, i: int, service: Service)
    requires Assembled(vd) && MayCompile(stage, vd, Rules(rules)) && n < |rules|
    ensures Origin(vd, component, i, service) && Routed(stage, vd, service, rules[n])
  {
    hide TargetOf, ResultOf, Exposable, Assembled, SortedPicks, RuleFor, FirstPort, Routed;
    var order, ts :| SortedTargets(vd, order, ts) && rules == RulesFor(stage, vd.name, ts);
    component, i := PickOrigin(vd.results, TargetOf, NameOf, order, ts, n);
    service := AssembledFromServices(vd, component, i);
    RoutedExactly(stage, vd, service, ts[n]);
  }

  lemma OriginRule(stage: string, vd: VectorDeployment, rules: seq<Rule>, component: string, i: int, service: Service)
      returns (n: nat)
    requires MayCompile(stage, vd, Rules(rules)) && Origin(vd, component, i, service) && service.exposedPort != ""
    ensures n < |rules| && Routed(stage, vd, service, rules[n])
  {
    hide TargetOf, ResultOf, Exposable, SortedPicks, RuleFor, FirstPort, Routed;
    var order, ts :| SortedTargets(vd, order, ts) && rules == RulesFor(stage, vd.name, ts);
    RouterReads(service);
    n := PickListed(vd.results, TargetOf, NameOf, order, ts, component, i);
    RoutedExactly(stage, vd, service, ts[n]);
  }
}
