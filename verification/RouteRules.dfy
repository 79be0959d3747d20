/**
 * The compiler from a vector's deployment results to the rules of its stage's HTTPRoute
 * (buildRouteRules of activation_task_execution_controller.go).
 */
module RouteRules {
  import opened Strings
  import opened Bags
  import opened Grouped
  import opened DeploymentResults

  const HEADER_STAGE := "x-konfidence-stage"
  const HEADER_SERVICE := "x-konfidence-service"
  const HEADER_ROUTING_KEY := "x-konfidence-routing-key"

  /** Status.DeploymentResults of a VectorDeployment, keyed by component. */
  datatype VectorDeployment = VectorDeployment(name: string, results: map<string, seq<DeploymentResult>>)

  datatype Target = Target(name: string, service: string, port: Int32)

  datatype Header = Header(name: string, value: string)

  /** The RequestHeaderModifier filter: headers to overwrite and header names to strip. */
  datatype HeaderFilter = HeaderFilter(overwrite: seq<Header>, remove: seq<string>)

  datatype Backend = Backend(service: string, port: Int32)

  /** `matches` is a disjunction of matches; each match is a conjunction of exact header matches. */
  datatype Rule = Rule(matches: seq<seq<Header>>, filters: seq<HeaderFilter>, backends: seq<Backend>)

  datatype Compiled = Rules(rules: seq<Rule>) | Broken(result: string)

  // ----- one deployment result -----

  /** The port the selection loops settle on: the first one of that name. */
  function FirstPort(ports: seq<ServicePort>, name: string): Option<ServicePort> {
    if ports == [] then None
    else if ports[0].name == name then Some(ports[0])
    else FirstPort(ports[1..], name)
  }

  lemma {:induction false} FirstPortAt(ports: seq<ServicePort>, i: nat)
    requires i < |ports|
    requires forall j :: 0 <= j < i ==> ports[j].name != ports[i].name
    ensures FirstPort(ports, ports[i].name) == Some(ports[i])
  {
    if i > 0 {
      assert ports[0].name != ports[i].name;
      FirstPortAt(ports[1..], i - 1);
    }
  }

  lemma {:induction false} NoPort(ports: seq<ServicePort>, name: string)
    requires forall j :: 0 <= j < |ports| ==> ports[j].name != name
    ensures FirstPort(ports, name) == None
  {
    if ports != [] {
      NoPort(ports[1..], name);
    }
  }

  /** The selection loop that both the deployer and the router run over a Service's ports. */
  method SelectPort(ports: seq<ServicePort>, name: string) returns (selected: Option<ServicePort>)
    ensures selected == FirstPort(ports, name)
    ensures selected.None? <==> forall j :: 0 <= j < |ports| ==> ports[j].name != name
    ensures selected.Some? ==> selected.value in ports && selected.value.name == name
  {
    selected := None;
    for i := 0 to |ports|
      invariant selected == None
      invariant forall j :: 0 <= j < i ==> ports[j].name != name
    {
      if ports[i].name == name {
        selected := Some(ports[i]);
        FirstPortAt(ports, i);
        return;
      }
    }
    NoPort(ports, name);
  }

  datatype Selection = Skipped | Selected(target: Target) | Breach

  /** What one deployment result contributes: nothing, a target, or a breach of the selected-port contract. */
  function Select(result: DeploymentResult): Selection {
    if result.typ != TYPE_HTTP_K8S_SERVICE then Skipped
    else match DecodeServiceSpec(result.spec)
      case None => Breach
      case Some(spec) =>
        if spec.exposedPort == "" then Skipped
        else match FirstPort(spec.ports, spec.exposedPort)
          case None => Breach
          case Some(port) =>
            if port.protocol != PROTOCOL_TCP then Breach
            else Selected(Target(result.name, spec.k8sName, port.port))
  }

  function TargetOf(result: DeploymentResult): Option<Target> {
    match Select(result)
    case Selected(t) => Some(t)
    case _ => None
  }

  predicate KeepsContract(result: DeploymentResult) {
    Select(result) != Breach
  }

  /** Port `i` is the first one that carries the exposed name. */
  predicate FirstExposed(spec: ServiceSpec, i: int) {
    0 <= i < |spec.ports| && spec.ports[i].name == spec.exposedPort && forall j :: 0 <= j < i ==> spec.ports[j].name != spec.exposedPort
  }

  /** The selected-port contract: nothing to route, or a first port of the exposed name that is a TCP port. */
  ghost predicate Acceptable(result: DeploymentResult) {
    result.typ == TYPE_HTTP_K8S_SERVICE ==>
      && DecodeServiceSpec(result.spec).Some?
      && var spec := DecodeServiceSpec(result.spec).value;
         spec.exposedPort == "" || exists i :: FirstExposed(spec, i) && spec.ports[i].protocol == PROTOCOL_TCP
  }

  /** The result asks for a route to `t`: its own name, its Service, and the number of that first port. */
  ghost predicate RoutesTo(result: DeploymentResult, t: Target) {
    && result.typ == TYPE_HTTP_K8S_SERVICE && DecodeServiceSpec(result.spec).Some?
    && var spec := DecodeServiceSpec(result.spec).value;
       spec.exposedPort != "" && exists i ::
         && FirstExposed(spec, i) && spec.ports[i].protocol == PROTOCOL_TCP
         && t == Target(result.name, spec.k8sName, spec.ports[i].port)
  }

  lemma ExposedFirst(spec: ServiceSpec)
    ensures forall i :: FirstExposed(spec, i) ==> FirstPort(spec.ports, spec.exposedPort) == Some(spec.ports[i])
    ensures FirstPort(spec.ports, spec.exposedPort).Some? ==> exists i :: FirstExposed(spec, i)
  {
    forall i | FirstExposed(spec, i) ensures FirstPort(spec.ports, spec.exposedPort) == Some(spec.ports[i]) {
      FirstPortAt(spec.ports, i);
    }
    if FirstPort(spec.ports, spec.exposedPort).Some? {
      var i := FirstPortIndex(spec.ports, spec.exposedPort);
      assert FirstExposed(spec, i);
    }
  }

  lemma {:induction false} FirstPortIndex(ports: seq<ServicePort>, name: string) returns (i: nat)
    requires FirstPort(ports, name).Some?
    ensures i < |ports| && ports[i].name == name && forall j :: 0 <= j < i ==> ports[j].name != name
  {
    if ports[0].name == name {
      i := 0;
    } else {
      var k := FirstPortIndex(ports[1..], name);
      i := k + 1;
      assert forall j :: 0 < j < i ==> ports[j] == ports[1..][j - 1];
    }
  }

  /** Which results pass, and where they route to, in terms of their type, spec and ports. */
  lemma SelectMeans(result: DeploymentResult)
    ensures KeepsContract(result) <==> Acceptable(result)
    ensures forall t :: TargetOf(result) == Some(t) <==> RoutesTo(result, t)
  {
    hide DecodeServiceSpec, FirstPort, FirstExposed;
    if DecodeServiceSpec(result.spec).Some? {
      ExposedFirst(DecodeServiceSpec(result.spec).value);
    }
  }

  // ----- the whole deployment -----

  function RuleFor(stage: string, deployment: string, t: Target): Rule {
    Rule([[Header(HEADER_STAGE, stage), Header(HEADER_SERVICE, t.name)]],
         [HeaderFilter([Header(HEADER_ROUTING_KEY, deployment)], [HEADER_STAGE, HEADER_SERVICE])],
         [Backend(t.service, t.port)])
  }

  function RulesFor(stage: string, deployment: string, ts: seq<Target>): seq<Rule> {
    seq(|ts|, i requires 0 <= i < |ts| => RuleFor(stage, deployment, ts[i]))
  }

  function NameOf(t: Target): string {
    t.name
  }

  /** No result of the deployment breaches the selected-port contract. */
  ghost predicate Sound(vd: VectorDeployment) {
    forall c, i :: At(vd.results, c, i) ==> KeepsContract(vd.results[c][i])
  }

  /** Results that select a port under one name route to one Service port. */
  ghost predicate Unambiguous(vd: VectorDeployment) {
    PicksAgree(vd.results, TargetOf, NameOf)
  }

  /** No two results select a port under one name. */
  ghost predicate RoutableNamesDistinct(vd: VectorDeployment) {
    PicksDistinct(vd.results, TargetOf, NameOf)
  }

  /** `ts` is a possible content of the target slice after the collection loops and the sort. */
  ghost predicate SortedTargets(vd: VectorDeployment, order: seq<string>, ts: seq<Target>) {
    SortedPicks(vd.results, TargetOf, NameOf, order, ts)
  }

  /** `c` is a possible outcome of compiling `vd`, for some iteration order and some outcome of the unstable sort. */
  ghost predicate MayCompile(stage: string, vd: VectorDeployment, c: Compiled) {
    match c
    case Rules(rules) =>
      Sound(vd) && exists order, ts :: SortedTargets(vd, order, ts) && rules == RulesFor(stage, vd.name, ts)
    case Broken(name) =>
      exists c, i :: At(vd.results, c, i) && !KeepsContract(vd.results[c][i]) && vd.results[c][i].name == name
  }

  // ----- the loops -----

  /** The body of the collection loop for one result. */
  method SelectTarget(result: DeploymentResult) returns (breach: bool, target: Option<Target>)
    ensures breach == !KeepsContract(result)
    ensures target == TargetOf(result)
    ensures breach <==> !Acceptable(result)
    ensures forall t :: target == Some(t) <==> RoutesTo(result, t)
  {
    hide DecodeServiceSpec, Acceptable, RoutesTo;
    SelectMeans(result);
    if result.typ != TYPE_HTTP_K8S_SERVICE {
      return false, None;
    }
    var decoded := DecodeServiceSpec(result.spec);
    if decoded.None? {
      return true, None;
    }
    var spec := decoded.value;
    if spec.exposedPort == "" {
      return false, None;
    }
    var selected := SelectPort(spec.ports, spec.exposedPort);
    if selected.None? || selected.value.protocol != PROTOCOL_TCP {
      return true, None;
    }
    return false, Some(Target(result.name, spec.k8sName, selected.value.port));
  }

  /** The inner collection loop: the results of one component. */
  method CollectComponent(results: seq<DeploymentResult>) returns (broken: Option<nat>, targets: seq<Target>)
    ensures broken.Some? ==> broken.value < |results| && !KeepsContract(results[broken.value])
    ensures broken.None? ==> All(KeepsContract, results) && targets == Collect(TargetOf, results)
  {
    broken, targets := None, [];
    for k := 0 to |results|
      invariant broken == None
      invariant All(KeepsContract, results[..k])
      invariant targets == Collect(TargetOf, results[..k])
    {
      var breach, target := SelectTarget(results[k]);
      if breach {
        broken := Some(k);
        return;
      }
      AllSnoc(KeepsContract, results, k);
      CollectSnoc(TargetOf, results, k);
      if target.Some? {
        targets := targets + [target.value];
      }
    }
    assert results[..|results|] == results;
  }

  /** The outer collection loop: the components in the order the map yields them. */
  method CollectTargets(vd: VectorDeployment) returns (broken: Option<string>, targets: seq<Target>, ghost order: seq<string>)
    ensures broken.Some? ==> MayCompile("", vd, Broken(broken.value))
    ensures broken.None? ==> Enumerates(order, vd.results.Keys) && All(KeepsContract, InOrder(vd.results, order))
    ensures broken.None? ==> targets == Collect(TargetOf, InOrder(vd.results, order))
  {
    var components := IterationOrder(vd.results.Keys);
    order, broken, targets := components, None, [];
    for n := 0 to |components|
      invariant broken == None
      invariant All(KeepsContract, InOrder(vd.results, components[..n]))
      invariant targets == Collect(TargetOf, InOrder(vd.results, components[..n]))
    {
      var results := vd.results[components[n]];
      var breach, found := CollectComponent(results);
      if breach.Some? {
        broken := Some(results[breach.value].name);
        assert At(vd.results, components[n], breach.value);
        return;
      }
      InOrderSnoc(vd.results, components, n);
      AllAppend(KeepsContract, InOrder(vd.results, components[..n]), results);
      CollectAppend(TargetOf, InOrder(vd.results, components[..n]), results);
      targets := targets + found;
    }
    assert components[..|components|] == components;
  }

  /** The emission loop. */
  method EmitRules(stage: string, deployment: string, targets: seq<Target>) returns (rules: seq<Rule>)
    ensures rules == RulesFor(stage, deployment, targets)
  {
    rules := [];
    for n := 0 to |targets|
      invariant rules == RulesFor(stage, deployment, targets[..n])
    {
      rules := rules + [RuleFor(stage, deployment, targets[n])];
    }
    assert targets[..|targets|] == targets;
  }

  /** buildRouteRules: collect targets in whatever order the component map yields, sort them by name, emit the rules. */
  method BuildRouteRules(stage: string, vd: VectorDeployment) returns (c: Compiled)
    ensures MayCompile(stage, vd, c)
  {
    var broken, targets, order := CollectTargets(vd);
    if broken.Some? {
      return Broken(broken.value);
    }
    targets := Sort(NameOf, targets);
    AllGroups(vd.results, KeepsContract, order);
    assert SortedTargets(vd, order, targets);
    var rules := EmitRules(stage, vd.name, targets);
    c := Rules(rules);
  }

  // ----- canonical compilation -----

  /**
   * Whether compilation fails depends on the deployment alone, never on the iteration order or the sort: it succeeds
   * exactly when every result keeps the selected-port contract.
   */
  lemma CompileVerdict(stage: string, vd: VectorDeployment)
    ensures Sound(vd) <==> forall c, i :: At(vd.results, c, i) ==> Acceptable(vd.results[c][i])
    ensures Sound(vd) <==> exists rules :: MayCompile(stage, vd, Rules(rules))
    ensures !Sound(vd) <==> exists name :: MayCompile(stage, vd, Broken(name))
  {
    hide KeepsContract, Acceptable, TargetOf, SortedPicks;
    forall c, i | At(vd.results, c, i) ensures KeepsContract(vd.results[c][i]) <==> Acceptable(vd.results[c][i]) {
      SelectMeans(vd.results[c][i]);
    }
    if Sound(vd) {
      var order, ts := SomePicks(vd.results, TargetOf, NameOf);
      assert SortedTargets(vd, order, ts);
      assert MayCompile(stage, vd, Rules(RulesFor(stage, vd.name, ts)));
    } else {
      var c, i :| At(vd.results, c, i) && !KeepsContract(vd.results[c][i]);
      assert MayCompile(stage, vd, Broken(vd.results[c][i].name));
    }
  }

  lemma SomeCompilation(stage: string, vd: VectorDeployment) returns (c: Compiled)
    ensures MayCompile(stage, vd, c)
  {
    CompileVerdict(stage, vd);
    if Sound(vd) {
      var rules :| MayCompile(stage, vd, Rules(rules));
      c := Rules(rules);
    } else {
      var name :| MayCompile(stage, vd, Broken(name));
      c := Broken(name);
    }
  }

  /** One half of canonicity: an unambiguous deployment compiles to one rule sequence, whatever the order and the sort. */
  lemma UnambiguousCompilesOnce(stage: string, vd: VectorDeployment, r1: seq<Rule>, r2: seq<Rule>)
    requires Unambiguous(vd)
    requires MayCompile(stage, vd, Rules(r1)) && MayCompile(stage, vd, Rules(r2))
    ensures r1 == r2
  {
    var o1, t1 :| SortedTargets(vd, o1, t1) && r1 == RulesFor(stage, vd.name, t1);
    var o2, t2 :| SortedTargets(vd, o2, t2) && r2 == RulesFor(stage, vd.name, t2);
    AgreeingPicksSortOnce(vd.results, TargetOf, NameOf, o1, t1, o2, t2);
  }

  /** The other half: an ambiguous deployment has two different compilations. */
  lemma AmbiguousCompilesTwice(stage: string, vd: VectorDeployment) returns (r1: seq<Rule>, r2: seq<Rule>)
    requires Sound(vd) && !Unambiguous(vd)
    ensures MayCompile(stage, vd, Rules(r1)) && MayCompile(stage, vd, Rules(r2))
    ensures r1 != r2
  {
    var order, t1, t2, m := DisagreeingPicksSortTwice(vd.results, TargetOf, NameOf);
    r1, r2 := RulesFor(stage, vd.name, t1), RulesFor(stage, vd.name, t2);
    assert SortedTargets(vd, order, t1) && SortedTargets(vd, order, t2);
    RuleForInjective(stage, vd.name, t1[m], t2[m]);
    assert r1[m] != r2[m];
  }

  lemma RuleForInjective(stage: string, deployment: string, t1: Target, t2: Target)
    requires t1 != t2
    ensures RuleFor(stage, deployment, t1) != RuleFor(stage, deployment, t2)
  {
    var r1, r2 := RuleFor(stage, deployment, t1), RuleFor(stage, deployment, t2);
    assert r1.matches[0][1].value == t1.name && r2.matches[0][1].value == t2.name;
    assert r1.backends[0] == Backend(t1.service, t1.port) && r2.backends[0] == Backend(t2.service, t2.port);
  }

  /** Canonical compilation, exactly: the rules are a function of the deployment iff equally named targets are equal. */
  lemma CanonicalCompilation(stage: string, vd: VectorDeployment)
    requires Sound(vd)
    ensures Unambiguous(vd) <==>
            forall r1, r2 :: MayCompile(stage, vd, Rules(r1)) && MayCompile(stage, vd, Rules(r2)) ==> r1 == r2
  {
    if Unambiguous(vd) {
      forall r1, r2 | MayCompile(stage, vd, Rules(r1)) && MayCompile(stage, vd, Rules(r2)) ensures r1 == r2 {
        UnambiguousCompilesOnce(stage, vd, r1, r2);
      }
    } else {
      var r1, r2 := AmbiguousCompilesTwice(stage, vd);
    }
  }

  /** With distinct routable names there is one outcome, and its rules ascend strictly by service name. */
  lemma DistinctNamesAscend(stage: string, vd: VectorDeployment, rules: seq<Rule>)
    requires RoutableNamesDistinct(vd) && MayCompile(stage, vd, Rules(rules))
    ensures Unambiguous(vd)
    ensures exists ts: seq<Target> :: rules == RulesFor(stage, vd.name, ts) && StrictlySortedBy(NameOf, ts)
  {
    var order, ts :| SortedTargets(vd, order, ts) && rules == RulesFor(stage, vd.name, ts);
    DistinctPicksAscend(vd.results, TargetOf, NameOf, order, ts);
  }

  /** The rules of a compilation are those of the results that route somewhere, each to its first exposed port. */
  lemma RulesMean(stage: string, vd: VectorDeployment, rules: seq<Rule>)
    requires MayCompile(stage, vd, Rules(rules))
    ensures forall n :: 0 <= n < |rules| ==> Stems(stage, vd, rules[n])
    ensures forall c, i, t :: At(vd.results, c, i) && RoutesTo(vd.results[c][i], t) ==> RuleFor(stage, vd.name, t) in rules
  {
    hide KeepsContract, RoutesTo, TargetOf, SortedPicks, RuleFor;
    var order, ts :| SortedTargets(vd, order, ts) && rules == RulesFor(stage, vd.name, ts);
    forall n | 0 <= n < |rules| ensures Stems(stage, vd, rules[n]) {
      var c, i := PickOrigin(vd.results, TargetOf, NameOf, order, ts, n);
      SelectMeans(vd.results[c][i]);
      assert At(vd.results, c, i) && RoutesTo(vd.results[c][i], ts[n]) && rules[n] == RuleFor(stage, vd.name, ts[n]);
    }
    forall c, i, t | At(vd.results, c, i) && RoutesTo(vd.results[c][i], t) ensures RuleFor(stage, vd.name, t) in rules {
      SelectMeans(vd.results[c][i]);
      var n := PickListed(vd.results, TargetOf, NameOf, order, ts, c, i);
      assert rules[n] == RuleFor(stage, vd.name, ts[n]);
    }
  }

  ghost predicate Stems(stage: string, vd: VectorDeployment, rule: Rule) {
    exists c, i, t :: At(vd.results, c, i) && RoutesTo(vd.results[c][i], t) && rule == RuleFor(stage, vd.name, t)
  }

  // ----- how many rules -----

  function Typed(result: DeploymentResult): Option<DeploymentResult> {
    if result.typ == TYPE_HTTP_K8S_SERVICE then Some(result) else None
  }

  predicate SelectsPort(result: DeploymentResult) {
    DecodeServiceSpec(result.spec).Some? && DecodeServiceSpec(result.spec).value.exposedPort != ""
  }

  lemma TargetsAreTyped(result: DeploymentResult)
    ensures TargetOf(result).Some? ==> Typed(result).Some?
    ensures KeepsContract(result) && Typed(result).Some? ==> (TargetOf(result).Some? <==> SelectsPort(result))
  {
    hide DecodeServiceSpec;
  }

  lemma RulePerTarget(stage: string, vd: VectorDeployment, rules: seq<Rule>, order: seq<string>)
    requires MayCompile(stage, vd, Rules(rules)) && Enumerates(order, vd.results.Keys)
    ensures |rules| == |Collect(TargetOf, InOrder(vd.results, order))|
  {
    hide KeepsContract, TargetOf, RuleFor, Collect, InOrder;
    var o, ts :| SortedTargets(vd, o, ts) && rules == RulesFor(stage, vd.name, ts);
    InOrderBag(vd.results, vd.results.Keys, o, order);
    CollectBag(TargetOf, InOrder(vd.results, o), InOrder(vd.results, order));
    var targets := Collect(TargetOf, InOrder(vd.results, order));
    assert |ts| == |multiset(ts)| == |multiset(targets)| == |targets|;
  }

  /** There is one rule per http-k8s-service result if and only if each of them selects a port. */
  lemma RuleCount(stage: string, vd: VectorDeployment, rules: seq<Rule>, order: seq<string>)
    requires MayCompile(stage, vd, Rules(rules)) && Enumerates(order, vd.results.Keys)
    ensures |rules| <= |Collect(Typed, InOrder(vd.results, order))|
    ensures |rules| == |Collect(Typed, InOrder(vd.results, order))| <==>
            forall c, i :: At(vd.results, c, i) && vd.results[c][i].typ == TYPE_HTTP_K8S_SERVICE ==> SelectsPort(vd.results[c][i])
  {
    hide KeepsContract, TargetOf, SelectsPort, RuleFor, Collect, InOrder, SortedPicks;
    RulePerTarget(stage, vd, rules, order);
    var results := InOrder(vd.results, order);
    forall i | 0 <= i < |results| && TargetOf(results[i]).Some? ensures Typed(results[i]).Some? {
      TargetsAreTyped(results[i]);
    }
    CollectFewer(TargetOf, Typed, results);
    RuleCountEach(vd, order);
  }

  lemma RuleCountEach(vd: VectorDeployment, order: seq<string>)
    requires Sound(vd) && Enumerates(order, vd.results.Keys)
    ensures var results := InOrder(vd.results, order);
            (forall i :: 0 <= i < |results| && Typed(results[i]).Some? ==> TargetOf(results[i]).Some?) <==>
            (forall c, i :: At(vd.results, c, i) && vd.results[c][i].typ == TYPE_HTTP_K8S_SERVICE ==> SelectsPort(vd.results[c][i]))
  {
    hide KeepsContract, TargetOf, SelectsPort;
    var results := InOrder(vd.results, order);
    forall i | 0 <= i < |results|
      ensures exists c, k :: At(vd.results, c, k) && vd.results[c][k] == results[i]
      ensures Typed(results[i]).Some? ==> (TargetOf(results[i]).Some? <==> SelectsPort(results[i]))
    {
      var c, k := InOrderMember(vd.results, order, i);
      TargetsAreTyped(results[i]);
    }
    forall c, k | At(vd.results, c, k) ensures exists i :: 0 <= i < |results| && results[i] == vd.results[c][k] {
      var j := IndexOf(c, order);
      var i := InOrderIndex(vd.results, order, j, k);
    }
  }
}
