/**
 * Provisioning of the konfidence-router Gateway (router_gateway.go). A route is published on it only while no client
 * outside the cluster can reach it: both the addresses it asks for and those it got must be limited to the cluster
 * (Gateway API enhancement GEP-5093). Times are in seconds.
 */
module RouterGateway {
  import opened Strings
  import opened Conditions

  const READY_TIMEOUT := 300
  const POLL_INTERVAL := 15

  const DEFAULT_GATEWAY_NAME := "konfidence-router"
  const LABEL_PROVISIONED_BY := "konfidence.cloud/provisioned-by"
  const PROVISIONED_BY_ORCHESTRATOR := "kubernetes-landscape-orchestrator"

  /** The conditions the operator reads, and any others the implementation reports. */
  datatype GatewayCondition = Accepted | Programmed | OtherCondition(name: string)

  /** A spec address without the field, as a CRD that prunes it stores it, is Unset. */
  datatype Routability = Unset | ClusterOnly | OtherScope

  datatype StatusAddress = StatusAddress(value: string, routability: Option<Routability>)

  datatype Gateway = Gateway(
    labels: map<string, string>,
    className: string,
    specAddresses: seq<Routability>,
    statusAddresses: seq<StatusAddress>,
    conditions: map<GatewayCondition, Condition<string>>,
    created: int)

  datatype Phase = Pending | Ready | Failed

  datatype Reason =
    | NoReason
    | ActivationSucceeded
    | WaitingForClusterAddress
    | GatewayClassNotFound
    | RoutabilityNotPersisted
    | GatewayNotAccepted
    | AddressNotClusterRoutable
    | GatewayNotReady

  datatype GatewayState = GatewayState(phase: Phase, reason: Reason, exposed: bool)

  predicate Provisioned(gateway: Gateway) {
    LABEL_PROVISIONED_BY in gateway.labels && gateway.labels[LABEL_PROVISIONED_BY] == PROVISIONED_BY_ORCHESTRATOR
  }

  /** requestsClusterRoutability */
  predicate RequestsClusterRoutability(gateway: Gateway) {
    gateway.specAddresses != [] && forall i :: 0 <= i < |gateway.specAddresses| ==> gateway.specAddresses[i] == ClusterOnly
  }

  /** isClusterRoutable */
  predicate IsClusterRoutable(gateway: Gateway) {
    && RequestsClusterRoutability(gateway)
    && gateway.statusAddresses != []
    && forall i :: 0 <= i < |gateway.statusAddresses| ==> gateway.statusAddresses[i].routability == Some(ClusterOnly)
  }

  predicate Rejected(gateway: Gateway) {
    Accepted in gateway.conditions && gateway.conditions[Accepted].status == False
  }

  /** Programmed with an address the implementation did not restrict to the cluster. */
  predicate Reachable(gateway: Gateway) {
    IsTrue(gateway.conditions, Programmed) && gateway.statusAddresses != [] && !IsClusterRoutable(gateway)
  }

  /** newRouterGateway, as the API server stores it: `kept` says whether the installed CRDs keep spec routability. */
  function NewGateway(className: string, kept: bool, now: int): Gateway {
    Gateway(map[LABEL_PROVISIONED_BY := PROVISIONED_BY_ORCHESTRATOR], className,
            [if kept then ClusterOnly else Unset], [], map[], now)
  }

  /** evaluateRouterGateway */
  function Evaluate(gateway: Gateway, now: int): (state: GatewayState)
    ensures state.phase == Ready <==> !Rejected(gateway) && IsClusterRoutable(gateway)
    ensures state.exposed <==>
            !RequestsClusterRoutability(gateway) || (!Rejected(gateway) && Reachable(gateway))
    ensures state.exposed ==> state.phase == Failed
    ensures state.phase == Pending ==> now - gateway.created <= READY_TIMEOUT
    ensures state.phase == Failed && !state.exposed ==> Rejected(gateway) || now - gateway.created > READY_TIMEOUT
  {
    if !RequestsClusterRoutability(gateway) then GatewayState(Failed, RoutabilityNotPersisted, true)
    else if Rejected(gateway) then GatewayState(Failed, GatewayNotAccepted, false)
    else if IsClusterRoutable(gateway) then GatewayState(Ready, NoReason, false)
    else if IsTrue(gateway.conditions, Programmed) && |gateway.statusAddresses| > 0
    then GatewayState(Failed, AddressNotClusterRoutable, true)
    else if now - gateway.created > READY_TIMEOUT then GatewayState(Failed, GatewayNotReady, false)
    else GatewayState(Pending, WaitingForClusterAddress, false)
  }

  /** missingGatewayClassState */
  function MissingClass(startedAt: int, now: int): GatewayState {
    GatewayState(if now - startedAt > READY_TIMEOUT then Failed else Pending, GatewayClassNotFound, false)
  }

  /** A stage route may be attached to this Gateway: it is the admin's, or no client outside the cluster reaches it. */
  predicate SafeToAttach(gateway: Gateway) {
    !Provisioned(gateway) || (!Rejected(gateway) && IsClusterRoutable(gateway))
  }
}
