/**
 * What one round of the deployment controllers does, told from what Flux and the cluster report: which conditions Flux
 * decides, which results are published, and what is wrong with a Service.
 */
module ArtifactDeploymentRounds {
  import opened Strings
  import opened Bags
  import opened Conditions
  import opened DeploymentResults
  import opened RouteRules
  import opened ArtifactDeployments
  import opened ArtifactDeploymentRuns

  // ----- conditions from Flux -----

  /** Entry `i` is the last Flux condition of this type. */
  predicate LastOf(flux: seq<FluxCondition>, name: string, i: int) {
    0 <= i < |flux| && flux[i].typ == name && forall j :: i < j < |flux| ==> flux[j].typ != name
  }

  predicate Kept(before: Statuses, after: Statuses, typ: DeploymentCondition) {
    (typ in after <==> typ in before) && (typ in before ==> after[typ] == before[typ])
  }

  /** Condition `typ` carries status and reason of the last Flux condition `name`, and is left alone when there is none. */
  ghost predicate Follows(before: Statuses, after: Statuses, typ: DeploymentCondition, flux: seq<FluxCondition>, name: string) {
    && (forall i :: LastOf(flux, name, i) ==> typ in after && after[typ] == Condition(flux[i].status, FromFlux(flux[i].reason)))
    && ((forall i :: 0 <= i < |flux| ==> flux[i].typ != name) ==> Kept(before, after, typ))
  }

  lemma FollowsNew(before: Statuses, after: Statuses, typ: DeploymentCondition, front: seq<FluxCondition>, last: FluxCondition)
    requires typ in after && after[typ] == Condition(last.status, FromFlux(last.reason))
    ensures Follows(before, after, typ, front + [last], last.typ)
  {
    var flux := front + [last];
    assert flux[|front|] == last;
    assert forall i :: LastOf(flux, last.typ, i) ==> i == |front|;
  }

  lemma FollowsOld(before: Statuses, mid: Statuses, after: Statuses, typ: DeploymentCondition, front: seq<FluxCondition>,
                   last: FluxCondition, name: string)
    requires Follows(before, mid, typ, front, name) && Kept(mid, after, typ) && last.typ != name
    ensures Follows(before, after, typ, front + [last], name)
  {
    var flux := front + [last];
    assert forall i :: 0 <= i < |front| ==> flux[i] == front[i];
    assert flux[|front|] == last;
    forall i | LastOf(flux, name, i) ensures LastOf(front, name, i) && front[i] == flux[i] {
      assert i != |front|;
      assert forall j :: i < j < |front| ==> front[j] == flux[j];
    }
  }

  /** A mapping that sends exactly one Flux type to `typ` makes `typ` follow it. */
  lemma {:induction false} MapFollows(before: Statuses, mapping: string -> Option<DeploymentCondition>, flux: seq<FluxCondition>,
                                      typ: DeploymentCondition, name: string)
    requires forall x :: mapping(x) == Some(typ) <==> x == name
    ensures Follows(before, MapFlux(before, mapping, flux), typ, flux, name)
  {
    if flux != [] {
      hide Follows;
      var front, last := flux[..|flux| - 1], flux[|flux| - 1];
      assert flux == front + [last];
      MapFollows(before, mapping, front, typ, name);
      var mid, after := MapFlux(before, mapping, front), MapFlux(before, mapping, flux);
      if last.typ == name {
        FollowsNew(before, after, typ, front, last);
      } else {
        FollowsOld(before, mid, after, typ, front, last, name);
      }
    }
  }

  /** A mapping that never yields `typ` leaves it alone. */
  lemma {:induction false} MapKeeps(before: Statuses, mapping: string -> Option<DeploymentCondition>, flux: seq<FluxCondition>,
                                    typ: DeploymentCondition)
    requires forall x :: mapping(x) != Some(typ)
    ensures Kept(before, MapFlux(before, mapping, flux), typ)
  {
    if flux != [] {
      MapKeeps(before, mapping, flux[..|flux| - 1], typ);
    }
  }

  /** Flux reports the source ready: its first "Ready" condition is True. */
  ghost predicate SourceReady(flux: seq<FluxCondition>) {
    exists i :: FirstOf(flux, "Ready", i) && flux[i].status == True
  }

  predicate FirstOf(flux: seq<FluxCondition>, name: string, i: int) {
    0 <= i < |flux| && flux[i].typ == name && forall j :: 0 <= j < i ==> flux[j].typ != name
  }

  lemma {:induction false} ReadyMeans(flux: seq<FluxCondition>)
    ensures FluxReady(flux) <==> SourceReady(flux)
  {
    if flux != [] {
      var rest := flux[1..];
      ReadyMeans(rest);
      if flux[0].typ == "Ready" {
        assert FirstOf(flux, "Ready", 0);
      } else {
        forall i ensures FirstOf(flux, "Ready", i) <==> FirstOf(rest, "Ready", i - 1) {
          assert forall j :: 0 < j < |flux| ==> flux[j] == rest[j - 1];
          assert forall j :: 0 <= j < |rest| ==> rest[j] == flux[j + 1];
        }
        if SourceReady(flux) {
          var i :| FirstOf(flux, "Ready", i) && flux[i].status == True;
          assert FirstOf(rest, "Ready", i - 1) && rest[i - 1].status == True;
        }
        if SourceReady(rest) {
          var i :| FirstOf(rest, "Ready", i) && rest[i].status == True;
          assert FirstOf(flux, "Ready", i + 1) && flux[i + 1].status == True;
        }
      }
    }
  }

  /** `rollout` decides the deployed condition by "Ready" and the healthy condition by `health`. */
  ghost predicate Decides(before: Statuses, after: Statuses, source: seq<FluxCondition>, proceeds: bool,
                          rollout: seq<FluxCondition>, health: string) {
    && Follows(before, after, ArtifactFetched, source, "Ready")
    && (proceeds ==> Follows(before, after, ArtifactDeployed, rollout, "Ready") && Follows(before, after, AppHealthy, rollout, health))
    && (!proceeds ==> Kept(before, after, ArtifactDeployed) && Kept(before, after, AppHealthy))
  }

  ghost predicate Untouched(before: Statuses, after: Statuses) {
    Kept(before, after, ArtifactFetched) && Kept(before, after, ArtifactDeployed) && Kept(before, after, AppHealthy)
  }

  /**
   * What Flux decides in a round. Helm: the chart's "Ready" decides fetched; once the chart is ready the release's
   * "Ready" decides deployed and its "Released" healthy. Kustomize: the same with the repository, the Kustomization and
   * its "Healthy". A round that stops earlier leaves all three alone.
   */
  ghost predicate FluxDecides(before: Statuses, after: Statuses, r: Round) {
    if r.matches != 1 then Untouched(before, after)
    else match r.flux
      case HelmRound(mapped, repositoryOk, releaseOk, chart, release) =>
        if !mapped || !repositoryOk || !releaseOk || chart.None? then Untouched(before, after)
        else Decides(before, after, chart.value, SourceReady(chart.value), release, "Released")
      case KustomizeRound(mapped, repositoryOk, repository, kustomization, kustomizationOk) =>
        if !mapped || !repositoryOk then Untouched(before, after)
        else Decides(before, after, repository, SourceReady(repository) && kustomizationOk, kustomization, "Healthy")
  }

  lemma NamesApart()
    ensures "Ready" != "Released" && "Ready" != "Healthy"
  {
    assert |"Ready"| == 5 && |"Released"| == 8 && |"Healthy"| == 7;
  }

  lemma HelmDecides(before: Statuses, chart: seq<FluxCondition>, release: seq<FluxCondition>)
    ensures Decides(before, FluxMapped(before, HelmRound(true, true, true, Some(chart), release)),
                    chart, SourceReady(chart), release, "Released")
  {
    hide MapFlux, LastOf, SourceReady, FluxReady;
    NamesApart();
    ReadyMeans(chart);
    var fetched := MapFlux(before, SourceCondition, chart);
    MapFollows(before, SourceCondition, chart, ArtifactFetched, "Ready");
    MapKeeps(before, SourceCondition, chart, ArtifactDeployed);
    MapKeeps(before, SourceCondition, chart, AppHealthy);
    MapKeeps(fetched, ReleaseCondition, release, ArtifactFetched);
    MapFollows(fetched, ReleaseCondition, release, ArtifactDeployed, "Ready");
    MapFollows(fetched, ReleaseCondition, release, AppHealthy, "Released");
  }

  lemma KustomizeDecides(before: Statuses, repository: seq<FluxCondition>, kustomization: seq<FluxCondition>, ok: bool)
    ensures Decides(before, FluxMapped(before, KustomizeRound(true, true, repository, kustomization, ok)),
                    repository, SourceReady(repository) && ok, kustomization, "Healthy")
  {
    hide MapFlux, LastOf, SourceReady, FluxReady;
    NamesApart();
    ReadyMeans(repository);
    var fetched := MapFlux(before, SourceCondition, repository);
    MapFollows(before, SourceCondition, repository, ArtifactFetched, "Ready");
    MapKeeps(before, SourceCondition, repository, ArtifactDeployed);
    MapKeeps(before, SourceCondition, repository, AppHealthy);
    MapKeeps(fetched, KustomizationCondition, kustomization, ArtifactFetched);
    MapFollows(fetched, KustomizationCondition, kustomization, ArtifactDeployed, "Ready");
    MapFollows(fetched, KustomizationCondition, kustomization, AppHealthy, "Healthy");
  }

  lemma MappedDecides(before: Statuses, r: Round)
    requires r.matches == 1
    ensures FluxDecides(before, FluxMapped(before, r.flux), r)
  {
    hide MapFlux, Decides, SourceReady;
    match r.flux
    case HelmRound(mapped, repositoryOk, releaseOk, chart, release) =>
      if mapped && repositoryOk && releaseOk && chart.Some? {
        HelmDecides(before, chart.value, release);
      }
    case KustomizeRound(mapped, repositoryOk, repository, kustomization, kustomizationOk) =>
      if mapped && repositoryOk {
        KustomizeDecides(before, repository, kustomization, kustomizationOk);
      }
  }

  /** Publication and readiness leave the three Flux conditions alone. */
  lemma RestKeeps(s: DeploymentStatus, r: Round)
    ensures Untouched(Mapped(s, r), ReconcileDeployment(s, r).conditions)
  {
    hide FluxMapped, FirstFailure, MapServices;
  }

  lemma DecidesVia(before: Statuses, mid: Statuses, after: Statuses, r: Round)
    requires FluxDecides(before, mid, r) && Untouched(mid, after)
    ensures FluxDecides(before, after, r)
  {
    hide LastOf, SourceReady;
  }

  /** After a round of either controller the Flux conditions say what Flux reported. */
  lemma RoundFollowsFlux(s: DeploymentStatus, r: Round)
    ensures FluxDecides(s.conditions, ReconcileDeployment(s, r).conditions, r)
  {
    hide FluxMapped, FluxDecides, Untouched, ReconcileDeployment;
    assert FluxDecides(s.conditions, Mapped(s, r), r) by {
      if r.matches == 1 {
        MappedDecides(s.conditions, r);
      } else {
        NothingMapped(s.conditions, r);
      }
    }
    RestKeeps(s, r);
    DecidesVia(s.conditions, Mapped(s, r), ReconcileDeployment(s, r).conditions, r);
  }

  lemma NothingMapped(before: Statuses, r: Round)
    requires r.matches != 1
    ensures FluxDecides(before, before, r)
  {
  }

  // ----- results -----

  /**
   * Results after a round: none when a Service is invalid, which is recorded with the first Service's reason; the mapped
   * ones when they can be created; else as before. Several resources of the type are refused, and nothing else changes.
   */
  lemma RoundResults(s: DeploymentStatus, r: Round)
    ensures Invalid(s, r) ==>
              var (s', reason) := (ReconcileDeployment(s, r), FirstFailure(r.services.value).value);
              && s'.results == []
              && ResultCreated in s'.conditions && s'.conditions[ResultCreated] == Condition(False, reason)
              && DeploymentReady in s'.conditions && s'.conditions[DeploymentReady] == Condition(False, reason)
              && Stalled in s'.conditions && s'.conditions[Stalled] == Condition(True, reason)
    ensures Creates(s, r) ==> ReconcileDeployment(s, r).results == MapServices(r.services.value).value
    ensures Creates(s, r) ==>
              var after := ReconcileDeployment(s, r).conditions;
              ResultCreated in after && after[ResultCreated] == Condition(True, Completed)
    ensures !Invalid(s, r) && !Creates(s, r) ==>
              ReconcileDeployment(s, r).results == s.results && Kept(s.conditions, ReconcileDeployment(s, r).conditions, ResultCreated)
    ensures r.matches > 1 ==>
              ReconcileDeployment(s, r) == s.(conditions := s.conditions[DeploymentReady := Condition(False, MultipleResources)])
  {
    hide FluxMapped, FirstFailure, MapServices;
    FluxMappedFrame(s.conditions, r.flux);
    assert ResultCreated in {ResultCreated, DeploymentReady, Stalled};
    assert Stalled in {ResultCreated, DeploymentReady, Stalled};
  }

  /** What is wrong with a Service: no port of the exposed name, or a first one that is not a TCP port. */
  lemma ExposureMeans(service: Service)
    ensures Exposure(service) == Some(ExposePortNotFound) <==>
            && service.resultName != "" && service.exposedPort != ""
            && forall i :: 0 <= i < |service.ports| ==> service.ports[i].name != service.exposedPort
    ensures Exposure(service) == Some(ExposePortUnsupportedProtocol) <==>
            && service.resultName != "" && service.exposedPort != ""
            && exists i :: FirstExposed(SpecOf(service), i) && service.ports[i].protocol != "TCP"
    ensures Exposure(service) == None || Exposure(service) == Some(ExposePortNotFound)
            || Exposure(service) == Some(ExposePortUnsupportedProtocol)
  {
    hide FirstPort;
    var spec := SpecOf(service);
    ExposedFirst(spec);
    if FirstPort(service.ports, service.exposedPort).None? {
      assert forall i :: !FirstExposed(spec, i);
      NoneNamed(service.ports, service.exposedPort);
    }
  }

  function SpecOf(service: Service): ServiceSpec {
    ServiceSpec(service.namespace, service.name, service.ports, service.exposedPort)
  }

  lemma {:induction false} NoneNamed(ports: seq<ServicePort>, name: string)
    requires FirstPort(ports, name).None?
    ensures forall i :: 0 <= i < |ports| ==> ports[i].name != name
  {
    if ports != [] {
      NoneNamed(ports[1..], name);
      assert forall i :: 0 < i < |ports| ==> ports[i] == ports[1..][i - 1];
    }
  }

  /** A published result carries its Service whole: name, type, and a spec that decodes to the Service's own data. */
  lemma ResultCarries(service: Service)
    ensures ResultOf(service).name == service.resultName && ResultOf(service).typ == "http-k8s-service"
    ensures DecodeServiceSpec(ResultOf(service).spec)
            == Some(ServiceSpec(service.namespace, service.name, service.ports, service.exposedPort))
  {
    hide EncodeServiceSpec;
    ServiceSpecRoundTrip(SpecOf(service));
  }
}
