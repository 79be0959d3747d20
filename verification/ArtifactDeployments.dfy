/**
 * The status of an ArtifactDeployment: Flux conditions mapped onto it, deployment results published from the deployed
 * Services, exposure failures and readiness (the fluxdeployer controllers and their status updaters).
 */
module ArtifactDeployments {
  import opened Strings
  import opened Bags
  import opened Conditions
  import opened DeploymentResults
  import opened RouteRules

  datatype DeploymentCondition = ArtifactFetched | ArtifactDeployed | AppHealthy | ResultCreated | DeploymentReady | Stalled

  datatype DeploymentReason =
    | ExposePortNotFound
    | ExposePortUnsupportedProtocol
    | Completed
    | MultipleResources
    | FromFlux(text: string)

  type Statuses = map<DeploymentCondition, Condition<DeploymentReason>>

  datatype DeploymentStatus = DeploymentStatus(conditions: Statuses, results: seq<DeploymentResult>)

  /** A Service of the deployment; `resultName` and `exposedPort` are its two annotations, "" when absent. */
  datatype Service = Service(
    name: string,
    namespace: string,
    resultName: string,
    exposedPort: string,
    ports: seq<ServicePort>)

  // ----- publication -----

  /** What is wrong with a Service's exposed port, if anything. */
  function Exposure(service: Service): Option<DeploymentReason> {
    if service.resultName == "" || service.exposedPort == "" then None
    else match FirstPort(service.ports, service.exposedPort)
      case None => Some(ExposePortNotFound)
      case Some(port) => if port.protocol != PROTOCOL_TCP then Some(ExposePortUnsupportedProtocol) else None
  }

  predicate Exposable(service: Service) {
    Exposure(service) == None
  }

  /** validateExposePorts: the first failure in list order. */
  method ValidateExposePorts(services: seq<Service>) returns (failure: Option<DeploymentReason>)
    ensures failure == FirstFailure(services)
    ensures failure.None? <==> All(Exposable, services)
    ensures failure.Some? ==> exists i :: 0 <= i < |services| && Exposure(services[i]) == failure && All(Exposable, services[..i])
  {
    for i := 0 to |services|
      invariant All(Exposable, services[..i])
      invariant FirstFailure(services) == FirstFailure(services[i..])
    {
      assert services[i..][1..] == services[i + 1..];
      var service := services[i];
      if service.resultName != "" && service.exposedPort != "" {
        var matched := SelectPort(service.ports, service.exposedPort);
        if matched.None? {
          return Some(ExposePortNotFound);
        }
        if matched.value.protocol != PROTOCOL_TCP {
          return Some(ExposePortUnsupportedProtocol);
        }
      }
      AllSnoc(Exposable, services, i);
    }
    assert services[..|services|] == services;
    failure := None;
  }

  function FirstFailure(services: seq<Service>): Option<DeploymentReason> {
    if services == [] then None
    else if Exposure(services[0]).Some? then Exposure(services[0])
    else FirstFailure(services[1..])
  }

  function ResultOf(service: Service): DeploymentResult {
    DeploymentResult(service.resultName, TYPE_HTTP_K8S_SERVICE,
                     Some(JsonText(EncodeServiceSpec(
                                     ServiceSpec(service.namespace, service.name, service.ports, service.exposedPort)))))
  }

  /** A Service opts in by naming its result. */
  function Published(service: Service): Option<DeploymentResult> {
    if service.resultName == "" then None else Some(ResultOf(service))
  }

  function ResultName(result: DeploymentResult): string {
    result.name
  }

  /** What mapServicesToDeploymentResults returns: None when two Services declare one result. */
  ghost function MapServices(services: seq<Service>): Option<seq<DeploymentResult>> {
    var results := Collect(Published, services);
    if DistinctBy(ResultName, results) then Some(results) else None
  }

  function ResultKey(name: string): string {
    NulJoin(name, TYPE_HTTP_K8S_SERVICE)
  }

  lemma ResultKeyInjective(a: string, b: string)
    requires ResultKey(a) == ResultKey(b)
    ensures a == b
  {
    assert |a| == |b|;
    assert ResultKey(a)[..|a|] == a && ResultKey(b)[..|b|] == b;
  }

  /** `seen` holds exactly the keys of `results`. */
  ghost predicate Seen(results: seq<DeploymentResult>, seen: set<string>) {
    && (forall k :: k in seen ==> exists j :: 0 <= j < |results| && k == ResultKey(ResultName(results[j])))
    && (forall j :: 0 <= j < |results| ==> ResultKey(ResultName(results[j])) in seen)
  }

  lemma SeenSnoc(results: seq<DeploymentResult>, seen: set<string>, result: DeploymentResult)
    requires Seen(results, seen) && DistinctBy(ResultName, results) && ResultKey(ResultName(result)) !in seen
    ensures Seen(results + [result], seen + {ResultKey(ResultName(result))}) && DistinctBy(ResultName, results + [result])
  {
    hide ResultKey;
    var more := results + [result];
    assert more[|results|] == result && forall j :: 0 <= j < |results| ==> more[j] == results[j];
    forall k | k in seen + {ResultKey(ResultName(result))}
      ensures exists j :: 0 <= j < |more| && k == ResultKey(ResultName(more[j]))
    {
      if k in seen {
        var j :| 0 <= j < |results| && k == ResultKey(ResultName(results[j]));
        assert more[j] == results[j];
      } else {
        assert k == ResultKey(ResultName(more[|results|]));
      }
    }
  }

  lemma PublishedResult(service: Service)
    requires service.resultName != ""
    ensures Picked(Published, service) == [ResultOf(service)] && ResultName(ResultOf(service)) == service.resultName
  {
  }

  /** mapServicesToDeploymentResults */
  method MapServicesToDeploymentResults(services: seq<Service>) returns (mapped: Option<seq<DeploymentResult>>)
    ensures mapped == MapServices(services)
  {
    hide ResultKey, ResultOf, ResultName, DistinctBy, Seen;
    var results: seq<DeploymentResult> := [];
    var seen: set<string> := {};
    SeenNothing();
    for i := 0 to |services|
      invariant results == Collect(Published, services[..i])
      invariant DistinctBy(ResultName, results) && Seen(results, seen)
    {
      CollectSnoc(Published, services, i);
      var service := services[i];
      if service.resultName != "" {
        PublishedResult(service);
        var key := ResultKey(service.resultName);
        if key in seen {
          SeenTwice(services, i, results, seen);
          return None;
        }
        SeenSnoc(results, seen, ResultOf(service));
        seen := seen + {key};
        results := results + [ResultOf(service)];
      }
    }
    assert services[..|services|] == services;
    mapped := Some(results);
  }

  lemma SeenNothing()
    ensures Seen([], {}) && DistinctBy(ResultName, [])
  {
  }

  lemma SeenTwice(services: seq<Service>, i: nat, results: seq<DeploymentResult>, seen: set<string>)
    requires i < |services| && results == Collect(Published, services[..i]) && Seen(results, seen)
    requires services[i].resultName != "" && ResultKey(services[i].resultName) in seen
    ensures MapServices(services) == None
  {
    hide ResultKey, EncodeServiceSpec, MapServices;
    CollectSnoc(Published, services, i);
    PublishedResult(services[i]);
    var j :| 0 <= j < |results| && ResultKey(services[i].resultName) == ResultKey(ResultName(results[j]));
    ResultKeyInjective(services[i].resultName, ResultName(results[j]));
    DuplicatePrefix(services, i + 1, j, |results|);
  }

  /** A duplicate among the first results is a duplicate among all. */
  lemma DuplicatePrefix(services: seq<Service>, n: nat, i: nat, j: nat)
    requires n <= |services|
    requires i < j < |Collect(Published, services[..n])|
    requires ResultName(Collect(Published, services[..n])[i]) == ResultName(Collect(Published, services[..n])[j])
    ensures MapServices(services) == None
  {
    hide Published, ResultName;
    assert services == services[..n] + services[n..];
    CollectAppend(Published, services[..n], services[n..]);
    var results := Collect(Published, services);
    assert ResultName(results[i]) == ResultName(results[j]);
  }

  // ----- the status as a step function -----

  /** hasExposureValidationFailure */
  predicate HasExposureFailure(conditions: Statuses) {
    IsTrue(conditions, Stalled) && conditions[Stalled].reason in {ExposePortNotFound, ExposePortUnsupportedProtocol}
  }

  /** setExposureValidationFailure */
  function ExposureFailed(conditions: Statuses, reason: DeploymentReason): Statuses {
    conditions[ResultCreated := Condition(False, reason)]
              [DeploymentReady := Condition(False, reason)]
              [Stalled := Condition(True, reason)]
  }

  /** DeploymentResultStatusUpdater.MutateStatus; `services` is None when listing them failed. */
  ghost function PublishResults(s: DeploymentStatus, services: Option<seq<Service>>): DeploymentStatus {
    if HasExposureFailure(s.conditions) || !IsTrue(s.conditions, ArtifactDeployed) || services.None? then s
    else if FirstFailure(services.value).Some? then
      DeploymentStatus(ExposureFailed(s.conditions, FirstFailure(services.value).value), [])
    else match MapServices(services.value)
      case None => s
      case Some(results) => DeploymentStatus(s.conditions[ResultCreated := Condition(True, Completed)], results)
  }

  /** ReadyConditionStatusUpdater.MutateStatus */
  function MarkReady(conditions: Statuses): Statuses {
    if !IsTrue(conditions, Stalled) && IsTrue(conditions, AppHealthy) && IsTrue(conditions, ResultCreated)
    then conditions[DeploymentReady := Condition(True, Completed)]
    else conditions
  }

  // ----- Flux -----

  datatype FluxCondition = FluxCondition(typ: string, status: Status, reason: string)

  /** mapHelmChartConditionType and mapOCIRepositoryConditionType */
  function SourceCondition(typ: string): Option<DeploymentCondition> {
    if typ == "Ready" then Some(ArtifactFetched) else None
  }

  /** mapHelmReleaseConditionType */
  function ReleaseCondition(typ: string): Option<DeploymentCondition> {
    if typ == "Ready" then Some(ArtifactDeployed) else if typ == "Released" then Some(AppHealthy) else None
  }

  /** mapKustomizationConditionType */
  function KustomizationCondition(typ: string): Option<DeploymentCondition> {
    if typ == "Ready" then Some(ArtifactDeployed) else if typ == "Healthy" then Some(AppHealthy) else None
  }

  /** The mapping reaches the fetched, deployed and healthy conditions only. */
  ghost predicate FluxOnly(mapping: string -> Option<DeploymentCondition>) {
    forall typ :: mapping(typ).Some? ==> mapping(typ).value in {ArtifactFetched, ArtifactDeployed, AppHealthy}
  }

  function MapFlux(conditions: Statuses, mapping: string -> Option<DeploymentCondition>, flux: seq<FluxCondition>): Statuses {
    if flux == [] then conditions
    else
      var last := flux[|flux| - 1];
      var rest := MapFlux(conditions, mapping, flux[..|flux| - 1]);
      match mapping(last.typ)
      case None => rest
      case Some(typ) => rest[typ := Condition(last.status, FromFlux(last.reason))]
  }

  /** meta.IsStatusConditionTrue for "Ready": the first condition of that type counts. */
  predicate FluxReady(flux: seq<FluxCondition>) {
    flux != [] && if flux[0].typ == "Ready" then flux[0].status == True else FluxReady(flux[1..])
  }

  /**
   * What the Flux sub-reconcilers report in one round. `mapped` says whether the OCM resource could be mapped at all;
   * each `Ok` whether the sub-reconciler returned without error; `chart` is None while the HelmChart does not exist.
   */
  datatype FluxRound =
    | HelmRound(mapped: bool, repositoryOk: bool, releaseOk: bool, chart: Option<seq<FluxCondition>>, release: seq<FluxCondition>)
    | KustomizeRound(mapped: bool, repositoryOk: bool, repository: seq<FluxCondition>,
                     kustomization: seq<FluxCondition>, kustomizationOk: bool)

  function FluxMapped(conditions: Statuses, round: FluxRound): Statuses {
    match round
    case HelmRound(mapped, repositoryOk, releaseOk, chart, release) =>
      if !mapped || !repositoryOk || !releaseOk || chart.None? then conditions
      else
        var fetched := MapFlux(conditions, SourceCondition, chart.value);
        if FluxReady(chart.value) then MapFlux(fetched, ReleaseCondition, release) else fetched
    case KustomizeRound(mapped, repositoryOk, repository, kustomization, kustomizationOk) =>
      if !mapped || !repositoryOk then conditions
      else
        var fetched := MapFlux(conditions, SourceCondition, repository);
        if FluxReady(repository) && kustomizationOk then MapFlux(fetched, KustomizationCondition, kustomization) else fetched
  }

  /** One Reconcile's inputs: how many OCM resources of the controller's type, what Flux says, which Services exist. */
  datatype Round = Round(matches: nat, flux: FluxRound, services: Option<seq<Service>>)

  /** Reconcile of the Helm and the Kustomize controller. */
  ghost function ReconcileDeployment(s: DeploymentStatus, r: Round): DeploymentStatus {
    if r.matches > 1 then s.(conditions := s.conditions[DeploymentReady := Condition(False, MultipleResources)])
    else
      var s1 := if r.matches == 1 then s.(conditions := FluxMapped(s.conditions, r.flux)) else s;
      var s2 := PublishResults(s1, r.services);
      s2.(conditions := MarkReady(s2.conditions))
  }

  // ----- the controllers -----

  /** The in-memory ArtifactDeployment that a Reconcile fetches, lets its helpers mutate, and patches back. */
  class Deployment {
    var conditions: Statuses
    var results: seq<DeploymentResult>

    constructor (s: DeploymentStatus)
      ensures Snapshot() == s
    {
      conditions, results := s.conditions, s.results;
    }

    function Snapshot(): DeploymentStatus
      reads this
    {
      DeploymentStatus(conditions, results)
    }

    /** mapStatusConditions: the loop all sub-reconcilers share. */
    method MapStatusConditions(mapping: string -> Option<DeploymentCondition>, flux: seq<FluxCondition>)
      modifies this`conditions
      ensures conditions == MapFlux(old(conditions), mapping, flux)
    {
      for i := 0 to |flux|
        invariant conditions == MapFlux(old(conditions), mapping, flux[..i])
      {
        assert flux[..i + 1][..i] == flux[..i];
        var typ := mapping(flux[i].typ);
        if typ.Some? {
          conditions := conditions[typ.value := Condition(flux[i].status, FromFlux(flux[i].reason))];
        }
      }
      assert flux[..|flux|] == flux;
    }

    /** The sub-reconciler cascade of the Helm and the Kustomize controller. */
    method ReconcileFlux(round: FluxRound)
      modifies this`conditions
      ensures conditions == FluxMapped(old(conditions), round)
    {
      match round
      case HelmRound(mapped, repositoryOk, releaseOk, chart, release) =>
        if mapped && repositoryOk && releaseOk && chart.Some? {
          MapStatusConditions(SourceCondition, chart.value);
          if FluxReady(chart.value) {
            MapStatusConditions(ReleaseCondition, release);
          }
        }
      case KustomizeRound(mapped, repositoryOk, repository, kustomization, kustomizationOk) =>
        if mapped && repositoryOk {
          MapStatusConditions(SourceCondition, repository);
          if FluxReady(repository) && kustomizationOk {
            MapStatusConditions(KustomizationCondition, kustomization);
          }
        }
    }

    /** setExposureValidationFailure: the loop over the three conditions it writes. */
    method SetExposureValidationFailure(reason: DeploymentReason)
      modifies this
      ensures Snapshot() == DeploymentStatus(ExposureFailed(old(conditions), reason), [])
    {
      results := [];
      var writes := [(ResultCreated, False), (DeploymentReady, False), (Stalled, True)];
      for i := 0 to |writes|
        invariant results == []
        invariant i == 0 ==> conditions == old(conditions)
        invariant i == 1 ==> conditions == old(conditions)[ResultCreated := Condition(False, reason)]
        invariant i == 2 ==> conditions == old(conditions)[ResultCreated := Condition(False, reason)]
                                                          [DeploymentReady := Condition(False, reason)]
        invariant i == 3 ==> conditions == ExposureFailed(old(conditions), reason)
      {
        conditions := conditions[writes[i].0 := Condition(writes[i].1, reason)];
      }
    }

    /** DeploymentResultStatusUpdater.MutateStatus */
    method MutateResults(services: Option<seq<Service>>)
      modifies this
      ensures Snapshot() == PublishResults(old(Snapshot()), services)
    {
      hide MapServices, FirstFailure;
      if HasExposureFailure(conditions) || !IsTrue(conditions, ArtifactDeployed) || services.None? {
        return;
      }
      var failure := ValidateExposePorts(services.value);
      if failure.Some? {
        SetExposureValidationFailure(failure.value);
        return;
      }
      var mapped := MapServicesToDeploymentResults(services.value);
      if mapped.None? {
        return;
      }
      results := mapped.value;
      conditions := conditions[ResultCreated := Condition(True, Completed)];
    }

    /** ReadyConditionStatusUpdater.MutateStatus */
    method MutateReady()
      modifies this`conditions
      ensures conditions == MarkReady(old(conditions))
    {
      if IsTrue(conditions, Stalled) {
        return;
      }
      if IsTrue(conditions, AppHealthy) && IsTrue(conditions, ResultCreated) {
        conditions := conditions[DeploymentReady := Condition(True, Completed)];
      }
    }

    /** Reconcile, up to the final patch: `resources` are the types of the component's OCM resources. */
    method Reconcile(resources: seq<string>, typ: string, flux: FluxRound, services: Option<seq<Service>>)
      modifies this
      ensures Snapshot() == ReconcileDeployment(old(Snapshot()), Round(Occurrences(resources, typ), flux, services))
    {
      hide FluxMapped, PublishResults;
      var matches := 0;
      for i := 0 to |resources|
        invariant Snapshot() == old(Snapshot())
        invariant matches + Occurrences(resources[i..], typ) == Occurrences(resources, typ)
      {
        assert resources[i..][1..] == resources[i + 1..];
        if resources[i] == typ {
          matches := matches + 1;
        }
      }
      if matches > 1 {
        conditions := conditions[DeploymentReady := Condition(False, MultipleResources)];
        return;
      }
      if matches == 1 {
        ReconcileFlux(flux);
      }
      MutateResults(services);
      MutateReady();
    }
  }

  function Occurrences(types: seq<string>, typ: string): nat {
    if types == [] then 0 else (if types[0] == typ then 1 else 0) + Occurrences(types[1..], typ)
  }
}
