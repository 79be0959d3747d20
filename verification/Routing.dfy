/**
 * What the published HTTPRoutes mean to a request, under Gateway API matching: the header matches of a match are
 * ANDed, the first matching rule of a route wins, field names compare without case and repeated fields are combined
 * (sections 3.2 and 3.2.2 of RFC 7230).
 */
module Routing {
  import opened Strings
  import opened Bags
  import opened Grouped
  import opened DeploymentResults
  import opened RouteRules

  const STAGE_ROUTE_PREFIX := "konfidence-stage-"

  /** An unset parent namespace means the route's own. */
  datatype Route = Route(parentName: string, parentNamespace: Option<string>, rules: seq<Rule>)

  function StageRouteName(stage: string): string {
    STAGE_ROUTE_PREFIX + stage
  }

  lemma StageRouteNameInjective(a: string, b: string)
    requires StageRouteName(a) == StageRouteName(b)
    ensures a == b
  {
    assert StageRouteName(a)[|STAGE_ROUTE_PREFIX|..] == a;
    assert StageRouteName(b)[|STAGE_ROUTE_PREFIX|..] == b;
  }

  // ----- requests -----

  /** The value of a field: all lines of that name, combined in order. */
  function FieldValue(headers: seq<Header>, name: string): Option<string> {
    if headers == [] then None
    else
      var rest := FieldValue(headers[1..], name);
      if !EqualFold(headers[0].name, name) then rest
      else if rest.None? then Some(headers[0].value)
      else Some(headers[0].value + "," + rest.value)
  }

  predicate MatchHolds(conditions: seq<Header>, headers: seq<Header>) {
    forall i :: 0 <= i < |conditions| ==> FieldValue(headers, conditions[i].name) == Some(conditions[i].value)
  }

  predicate RuleMatches(rule: Rule, headers: seq<Header>) {
    rule.matches == [] || exists i :: 0 <= i < |rule.matches| && MatchHolds(rule.matches[i], headers)
  }

  predicate FirstMatch(rules: seq<Rule>, headers: seq<Header>, n: int) {
    && 0 <= n < |rules| && RuleMatches(rules[n], headers)
    && forall i :: 0 <= i < n ==> !RuleMatches(rules[i], headers)
  }

  /** A Gateway by name and namespace, as the routes of landscape namespace `home` see it. */
  datatype GatewayAt = GatewayAt(name: string, namespace: string, home: string)

  /** The route names this Gateway as its parent, whether it leaves its own namespace unset or spells it out. */
  predicate Attached(route: Route, at: GatewayAt) {
    && route.parentName == at.name
    && (if route.parentNamespace.None? then at.home else route.parentNamespace.value) == at.namespace
  }

  /** The Gateway may serve the request by rule `n` of route `k`. */
  predicate Served(routes: map<string, Route>, at: GatewayAt,
                   headers: seq<Header>, k: string, n: int) {
    k in routes && Attached(routes[k], at) && FirstMatch(routes[k].rules, headers, n)
  }

  predicate Named(names: seq<string>, name: string) {
    exists i :: 0 <= i < |names| && EqualFold(names[i], name)
  }

  function Strip(headers: seq<Header>, names: seq<string>): seq<Header> {
    if headers == [] then []
    else (if Named(names, headers[0].name) then [] else [headers[0]]) + Strip(headers[1..], names)
  }

  function Overwrite(headers: seq<Header>, given: seq<Header>): seq<Header>
    decreases |given|
  {
    if given == [] then headers
    else Overwrite(Strip(headers, [given[0].name]) + [given[0]], given[1..])
  }

  function ApplyFilters(headers: seq<Header>, filters: seq<HeaderFilter>): seq<Header>
    decreases |filters|
  {
    if filters == [] then headers
    else ApplyFilters(Strip(Overwrite(headers, filters[0].overwrite), filters[0].remove), filters[1..])
  }

  lemma {:induction false} StrippedField(headers: seq<Header>, names: seq<string>, name: string)
    ensures Named(names, name) ==> FieldValue(Strip(headers, names), name) == None
    ensures !Named(names, name) ==> FieldValue(Strip(headers, names), name) == FieldValue(headers, name)
  {
    if headers != [] {
      StrippedField(headers[1..], names, name);
      var rest := Strip(headers[1..], names);
      if EqualFold(headers[0].name, name) {
        NamedFold(names, headers[0].name, name);
      }
      if Named(names, headers[0].name) {
        assert Strip(headers, names) == rest;
      } else {
        assert Strip(headers, names) == [headers[0]] + rest;
        assert ([headers[0]] + rest)[1..] == rest;
      }
    }
  }

  lemma NamedFold(names: seq<string>, a: string, b: string)
    requires EqualFold(a, b)
    ensures Named(names, a) == Named(names, b)
  {
    if Named(names, a) {
      var i :| 0 <= i < |names| && EqualFold(names[i], a);
      assert EqualFold(names[i], b);
    }
    if Named(names, b) {
      var i :| 0 <= i < |names| && EqualFold(names[i], b);
      assert EqualFold(names[i], a);
    }
  }

  lemma {:induction false} AppendedField(headers: seq<Header>, h: Header, name: string)
    ensures EqualFold(h.name, name) && FieldValue(headers, name).None? ==>
              FieldValue(headers + [h], name) == Some(h.value)
    ensures !EqualFold(h.name, name) ==> FieldValue(headers + [h], name) == FieldValue(headers, name)
  {
    if headers == [] {
      assert headers + [h] == [h];
      assert [h][1..] == [];
    } else {
      AppendedField(headers[1..], h, name);
      assert (headers + [h])[1..] == headers[1..] + [h];
    }
  }

  /** The forwarded request: the routing key is the deployment's name, whatever the client sent; the two selecting
      fields are gone; every other field is as it came. */
  lemma ForwardedFields(stage: string, deployment: string, t: Target, headers: seq<Header>, name: string)
    ensures
      var forwarded := ApplyFilters(headers, RuleFor(stage, deployment, t).filters);
      FieldValue(forwarded, name) ==
      if EqualFold(HEADER_ROUTING_KEY, name) then Some(deployment)
      else if EqualFold(HEADER_STAGE, name) || EqualFold(HEADER_SERVICE, name) then None
      else FieldValue(headers, name)
  {
    var key := Header(HEADER_ROUTING_KEY, deployment);
    var removed := [HEADER_STAGE, HEADER_SERVICE];
    var filters := RuleFor(stage, deployment, t).filters;
    assert filters == [HeaderFilter([key], removed)];
    var h1 := Strip(headers, [HEADER_ROUTING_KEY]);
    var h2 := h1 + [key];
    assert [key][1..] == [];
    assert Overwrite(headers, [key]) == Overwrite(h2, []) == h2;
    assert filters[1..] == [];
    assert ApplyFilters(headers, filters) == ApplyFilters(Strip(h2, removed), []) == Strip(h2, removed);
    StrippedField(headers, [HEADER_ROUTING_KEY], name);
    AppendedField(h1, key, name);
    StrippedField(h2, removed, name);
    SelectingNames(name);
  }

  lemma SelectingNames(name: string)
    ensures Named([HEADER_ROUTING_KEY], name) <==> EqualFold(HEADER_ROUTING_KEY, name)
    ensures Named([HEADER_STAGE, HEADER_SERVICE], name) <==> EqualFold(HEADER_STAGE, name) || EqualFold(HEADER_SERVICE, name)
    ensures EqualFold(HEADER_ROUTING_KEY, name) ==> !EqualFold(HEADER_STAGE, name) && !EqualFold(HEADER_SERVICE, name)
  {
    assert [HEADER_ROUTING_KEY][0] == HEADER_ROUTING_KEY;
    assert [HEADER_STAGE, HEADER_SERVICE][0] == HEADER_STAGE && [HEADER_STAGE, HEADER_SERVICE][1] == HEADER_SERVICE;
    assert |HEADER_ROUTING_KEY| == 24 && |HEADER_STAGE| == 18 && |HEADER_SERVICE| == 20;
  }

  // ----- the table the routes stand for -----

  /** The rules of every attached route were compiled for its own stage from the deployment `live` assigns to it. */
  ghost predicate Publishes(routes: map<string, Route>, at: GatewayAt,
                            live: map<string, VectorDeployment>) {
    && (forall k :: k in routes && Attached(routes[k], at) ==>
          exists stage :: stage in live && k == StageRouteName(stage))
    && (forall stage :: stage in live ==>
          var k := StageRouteName(stage);
          && k in routes && Attached(routes[k], at)
          && MayCompile(stage, live[stage], Rules(routes[k].rules)))
  }

  /** The table row (stage, t.name) -> (t.service, t.port). */
  ghost predicate Entry(live: map<string, VectorDeployment>, stage: string, t: Target) {
    && stage in live
    && exists c, i :: At(live[stage].results, c, i) && TargetOf(live[stage].results[c][i]) == Some(t)
  }

  /** A request selects the row (stage, service) by its two fields. */
  predicate Selects(headers: seq<Header>, stage: string, service: string) {
    FieldValue(headers, HEADER_STAGE) == Some(stage) && FieldValue(headers, HEADER_SERVICE) == Some(service)
  }

  lemma RuleForMatches(stage: string, deployment: string, t: Target, headers: seq<Header>)
    ensures RuleMatches(RuleFor(stage, deployment, t), headers) <==> Selects(headers, stage, t.name)
  {
    var rule := RuleFor(stage, deployment, t);
    var conditions := rule.matches[0];
    assert conditions == [Header(HEADER_STAGE, stage), Header(HEADER_SERVICE, t.name)];
    assert conditions[0] == Header(HEADER_STAGE, stage) && conditions[1] == Header(HEADER_SERVICE, t.name);
    assert MatchHolds(conditions, headers) <==> Selects(headers, stage, t.name);
  }

  /** A request served by a route of `stage` asked for that stage, and the rule that serves it is the row's rule. */
  lemma ServedRow(vd: VectorDeployment, stage: string, rules: seq<Rule>, headers: seq<Header>, n: int) returns (t: Target)
    requires MayCompile(stage, vd, Rules(rules)) && FirstMatch(rules, headers, n)
    ensures rules[n] == RuleFor(stage, vd.name, t) && Selects(headers, stage, t.name)
    ensures exists c, i :: At(vd.results, c, i) && TargetOf(vd.results[c][i]) == Some(t)
  {
    var order, ts :| SortedTargets(vd, order, ts) && rules == RulesFor(stage, vd.name, ts);
    t := ts[n];
    RuleForMatches(stage, vd.name, t, headers);
    var c, i := PickOrigin(vd.results, TargetOf, NameOf, order, ts, n);
  }

  /** A request for a row of the table is served by some rule. */
  lemma RowServed(vd: VectorDeployment, stage: string, rules: seq<Rule>, headers: seq<Header>, t: Target) returns (n: nat)
    requires MayCompile(stage, vd, Rules(rules)) && Selects(headers, stage, t.name)
    requires exists c, i :: At(vd.results, c, i) && TargetOf(vd.results[c][i]) == Some(t)
    ensures FirstMatch(rules, headers, n)
  {
    hide TargetOf, RuleFor, RuleMatches, FirstMatch, Selects, Sound, SortedPicks;
    var order, ts :| SortedTargets(vd, order, ts) && rules == RulesFor(stage, vd.name, ts);
    var c, i :| At(vd.results, c, i) && TargetOf(vd.results[c][i]) == Some(t);
    var m := PickListed(vd.results, TargetOf, NameOf, order, ts, c, i);
    RuleForMatches(stage, vd.name, t, headers);
    n := FirstIndex(rules, headers, m);
  }

  lemma {:induction false} FirstIndex(rules: seq<Rule>, headers: seq<Header>, m: nat) returns (n: nat)
    requires m < |rules| && RuleMatches(rules[m], headers)
    ensures FirstMatch(rules, headers, n)
  {
    if j :| 0 <= j < m && RuleMatches(rules[j], headers) {
      n := FirstIndex(rules, headers, j);
    } else {
      n := m;
    }
  }

  /**
   * Routing meaning: over all stage routes on a Gateway, serving a request is looking up (stage, service) in the
   * table; the request reaches exactly the row's Service port, carrying that stage's routing key, and no route of
   * another stage ever serves it.
   */
  lemma RoutingMeaning(routes: map<string, Route>, at: GatewayAt,
                       live: map<string, VectorDeployment>, headers: seq<Header>)
    requires Publishes(routes, at, live)
    requires forall stage :: stage in live ==> Unambiguous(live[stage])
    ensures forall stage, t: Target :: Selects(headers, stage, t.name) && Entry(live, stage, t) ==>
              exists n :: Served(routes, at, headers, StageRouteName(stage), n)
                          && routes[StageRouteName(stage)].rules[n] == RuleFor(stage, live[stage].name, t)
    ensures forall k, n :: Served(routes, at, headers, k, n) ==>
              exists stage, t: Target ::
                && Selects(headers, stage, t.name) && Entry(live, stage, t)
                && k == StageRouteName(stage) && routes[k].rules[n] == RuleFor(stage, live[stage].name, t)
  {
    forall stage, t: Target | Selects(headers, stage, t.name) && Entry(live, stage, t)
      ensures exists n :: Served(routes, at, headers, StageRouteName(stage), n)
                          && routes[StageRouteName(stage)].rules[n] == RuleFor(stage, live[stage].name, t)
    {
      var rules := routes[StageRouteName(stage)].rules;
      var n := RowServed(live[stage], stage, rules, headers, t);
      assert Served(routes, at, headers, StageRouteName(stage), n);
      var t' := ServedRow(live[stage], stage, rules, headers, n);
      EntryUnique(live, stage, t, t');
    }
    forall k, n | Served(routes, at, headers, k, n)
      ensures exists stage, t: Target ::
                && Selects(headers, stage, t.name) && Entry(live, stage, t)
                && k == StageRouteName(stage) && routes[k].rules[n] == RuleFor(stage, live[stage].name, t)
    {
      var stage :| stage in live && k == StageRouteName(stage);
      var t := ServedRow(live[stage], stage, routes[k].rules, headers, n);
      assert Entry(live, stage, t);
    }
  }

  /** The table is a function of (stage, service). */
  lemma EntryUnique(live: map<string, VectorDeployment>, stage: string, t1: Target, t2: Target)
    requires Entry(live, stage, t1) && Entry(live, stage, t2) && Unambiguous(live[stage])
    requires t1.name == t2.name
    ensures t1 == t2
  {
    var c, i :| At(live[stage].results, c, i) && TargetOf(live[stage].results[c][i]) == Some(t1);
    var d, j :| At(live[stage].results, d, j) && TargetOf(live[stage].results[d][j]) == Some(t2);
    assert NameOf(t1) == NameOf(t2);
  }

  /** The Gateway never has a choice: at most one route, and in it one rule, serves a request. */
  lemma ServedOnce(routes: map<string, Route>, at: GatewayAt,
                   live: map<string, VectorDeployment>, headers: seq<Header>, k1: string, n1: int, k2: string, n2: int)
    requires Publishes(routes, at, live)
    requires Served(routes, at, headers, k1, n1) && Served(routes, at, headers, k2, n2)
    ensures k1 == k2 && n1 == n2
  {
    var s1 :| s1 in live && k1 == StageRouteName(s1);
    var s2 :| s2 in live && k2 == StageRouteName(s2);
    var t1 := ServedRow(live[s1], s1, routes[k1].rules, headers, n1);
    var t2 := ServedRow(live[s2], s2, routes[k2].rules, headers, n2);
    assert s1 == s2;
  }
}
