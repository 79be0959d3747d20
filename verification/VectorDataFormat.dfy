/**
 * The ConfigMap layout shared by the VectorData controller, which renders it, and the vector-data service, which
 * parses it (renderData of vectordata_controller.go and getConfiguration of vector_data_service.go).
 */
module VectorDataFormat {
  import opened Strings
  import opened Bags
  import opened DeploymentResults

  const CONFIG_MAP_PREFIX := "vector-data-"
  const FEATURES_KEY := "features.json"
  const AUTHORED_KEY := "authored.json"
  const RESULTS_PREFIX := "deploymentResults."
  const JSON_SUFFIX := ".json"

  type Data = map<string, Raw>

  /** Features and authored values are None when the RawExtension is nil or empty. */
  datatype Spec = Spec(features: Option<Raw>, authored: Option<Raw>, results: map<string, seq<DeploymentResult>>)

  // ----- rendering -----

  function RawOrNull(raw: Option<Raw>): Raw {
    match raw
    case None => JsonText(Null)
    case Some(r) => r
  }

  /** strings.LastIndex(s, "/"), -1 when there is none. */
  function LastSlash(s: string): (i: int)
    ensures -1 <= i < |s|
    ensures i >= 0 ==> s[i] == '/'
    ensures forall j :: i < j < |s| ==> s[j] != '/'
  {
    if s == [] then -1
    else if s[|s| - 1] == '/' then |s| - 1
    else LastSlash(s[..|s| - 1])
  }

  /** componentBasename: the last path segment, or the whole name when there is none or it is empty. */
  function Basename(component: string): (b: string)
    ensures b != component ==> '/' !in b && b != "" && exists parent :: component == parent + "/" + b
    ensures b == component <==> '/' !in component || component[|component| - 1] == '/'
  {
    var i := LastSlash(component);
    if 0 <= i < |component| - 1 then
      assert component == component[..i] + "/" + component[i + 1..];
      component[i + 1..]
    else component
  }

  predicate Encodable(result: DeploymentResult) {
    result.spec.Some? ==> result.spec.value.JsonText?
  }

  function EncodeResult(result: DeploymentResult): Json {
    Obj(map["name" := Str(result.name), "type" := Str(result.typ),
            "spec" := if result.spec.Some? && result.spec.value.JsonText? then result.spec.value.json else Null])
  }

  function EncodeResults(results: seq<DeploymentResult>): Raw {
    JsonText(Arr(seq(|results|, i requires 0 <= i < |results| => EncodeResult(results[i]))))
  }

  /** `item` is an object with exactly these three fields: the result's name, its type and its spec, null when there is none. */
  ghost predicate Describes(item: Json, result: DeploymentResult) {
    && item.Obj? && item.fields.Keys == {"name", "type", "spec"}
    && item.fields["name"] == Str(result.name) && item.fields["type"] == Str(result.typ)
    && (result.spec.None? ==> item.fields["spec"] == Null)
    && (result.spec.Some? ==> result.spec.value == JsonText(item.fields["spec"]))
  }

  /** `json` is the array of these results, in order. */
  ghost predicate ListsResults(json: Json, results: seq<DeploymentResult>) {
    json.Arr? && |json.items| == |results| && forall i :: 0 <= i < |results| ==> Describes(json.items[i], results[i])
  }

  /** `raw` is JSON text of that array. */
  ghost predicate Holds(raw: Raw, results: seq<DeploymentResult>) {
    raw.JsonText? && ListsResults(raw.json, results)
  }

  lemma FieldNamesApart()
    ensures "name" != "type" && "name" != "spec" && "type" != "spec"
  {
    assert "name"[0] == 'n' && "type"[0] == 't' && "spec"[0] == 's';
  }

  lemma EncodedDescribes(result: DeploymentResult)
    requires Encodable(result)
    ensures Describes(EncodeResult(result), result)
  {
    FieldNamesApart();
  }

  lemma EncodedHolds(results: seq<DeploymentResult>)
    requires All(Encodable, results)
    ensures Holds(EncodeResults(results), results)
  {
    hide EncodeResult, Describes;
    forall i | 0 <= i < |results| ensures Describes(EncodeResult(results[i]), results[i]) {
      EncodedDescribes(results[i]);
    }
  }

  /** Results determine their array. */
  lemma ListedOnce(a: Json, b: Json, results: seq<DeploymentResult>)
    requires ListsResults(a, results) && ListsResults(b, results)
    ensures a == b
  {
    hide Describes;
    forall i | 0 <= i < |results| ensures a.items[i] == b.items[i] {
      DescribedOnce(a.items[i], b.items[i], results[i]);
    }
  }

  lemma DescribedOnce(a: Json, b: Json, result: DeploymentResult)
    requires Describes(a, result) && Describes(b, result)
    ensures a == b
  {
    FieldNamesApart();
    assert a.fields == b.fields;
  }

  /** The key assertUniqueResults puts into its `seen` set. */
  function PairKey(result: DeploymentResult): string {
    NulJoin(result.name, result.typ)
  }

  function ResultsKey(basename: string): string {
    RESULTS_PREFIX + basename + JSON_SUFFIX
  }

  /** assertUniqueResults */
  method AssertUniqueResults(results: seq<DeploymentResult>) returns (unique: bool)
    ensures unique <==> DistinctBy(PairKey, results)
  {
    hide PairKey;
    var seen: set<string> := {};
    for i := 0 to |results|
      invariant DistinctBy(PairKey, results[..i])
      invariant forall k :: k in seen ==> exists j :: 0 <= j < i && k == PairKey(results[j])
      invariant forall j :: 0 <= j < i ==> PairKey(results[j]) in seen
    {
      var key := PairKey(results[i]);
      if key in seen {
        return false;
      }
      seen := seen + {key};
    }
    assert results[..|results|] == results;
    unique := true;
  }

  /** As long as names carry no NUL, the joined keys are distinct exactly when the (name, type) pairs are. */
  lemma UniqueByPair(results: seq<DeploymentResult>)
    requires forall i :: 0 <= i < |results| ==> '\0' !in results[i].name
    ensures DistinctBy(PairKey, results) <==>
            forall i, j :: 0 <= i < j < |results| ==> (results[i].name, results[i].typ) != (results[j].name, results[j].typ)
  {
    if forall i, j :: 0 <= i < j < |results| ==> (results[i].name, results[i].typ) != (results[j].name, results[j].typ) {
      forall i, j | 0 <= i < j < |results| ensures PairKey(results[i]) != PairKey(results[j]) {
        if PairKey(results[i]) == PairKey(results[j]) {
          NulJoinInjective(results[i].name, results[i].typ, results[j].name, results[j].typ);
        }
      }
    } else {
      var i, j :| 0 <= i < j < |results| && (results[i].name, results[i].typ) == (results[j].name, results[j].typ);
      assert PairKey(results[i]) == PairKey(results[j]);
    }
  }

  /** One component renders: its results are unique and carry JSON. */
  ghost predicate Renderable(results: seq<DeploymentResult>) {
    DistinctBy(PairKey, results) && All(Encodable, results)
  }

  /** Exactly the specs that render: distinct non-empty basenames, and every such component renderable. */
  ghost predicate Renders(spec: Spec) {
    && (forall c :: c in spec.results && Basename(c) != "" ==> Renderable(spec.results[c]))
    && (forall c, d :: c in spec.results && d in spec.results && Basename(c) == Basename(d) != "" ==> c == d)
  }

  /** Acceptance in the documented terms: distinct basenames, and (name, type) pairs unique within each component. */
  lemma RenderAcceptance(spec: Spec)
    requires forall c, i :: c in spec.results && 0 <= i < |spec.results[c]| ==>
               '\0' !in spec.results[c][i].name && Encodable(spec.results[c][i])
    ensures Renders(spec) <==>
            && (forall c, d :: c in spec.results && d in spec.results && Basename(c) == Basename(d) != "" ==> c == d)
            && (forall c, i, j :: c in spec.results && Basename(c) != "" && 0 <= i < j < |spec.results[c]| ==>
                  (spec.results[c][i].name, spec.results[c][i].typ) != (spec.results[c][j].name, spec.results[c][j].typ))
  {
    hide Basename, PairKey, DistinctBy;
    forall c | c in spec.results
      ensures Renderable(spec.results[c]) <==>
              forall i, j :: 0 <= i < j < |spec.results[c]| ==>
                (spec.results[c][i].name, spec.results[c][i].typ) != (spec.results[c][j].name, spec.results[c][j].typ)
    {
      UniqueByPair(spec.results[c]);
    }
  }

  /** Component `c` is rendered under key `k`. */
  ghost predicate Claims(spec: Spec, c: string, k: string) {
    c in spec.results && Basename(c) != "" && k == ResultsKey(Basename(c))
  }

  /** `data` is the rendering of the components in `done`, plus features and authored values. */
  ghost predicate RendersTo(spec: Spec, done: set<string>, data: Data) {
    && FEATURES_KEY in data && data[FEATURES_KEY] == RawOrNull(spec.features)
    && AUTHORED_KEY in data && data[AUTHORED_KEY] == RawOrNull(spec.authored)
    && (forall c :: c in done && c in spec.results && Basename(c) != "" ==>
          ResultsKey(Basename(c)) in data && Holds(data[ResultsKey(Basename(c))], spec.results[c]))
    && (forall k :: k in data ==> k == FEATURES_KEY || k == AUTHORED_KEY || exists c :: c in done && Claims(spec, c, k))
  }

  /** `data` is what `spec` renders to. */
  ghost predicate RenderedAs(spec: Spec, data: Data) {
    Renders(spec) && RendersTo(spec, spec.results.Keys, data)
  }

  lemma ResultsKeyInjective(a: string, b: string)
    requires ResultsKey(a) == ResultsKey(b)
    ensures a == b
  {
    assert |a| == |b|;
    assert ResultsKey(a)[|RESULTS_PREFIX|..|RESULTS_PREFIX| + |a|] == a;
    assert ResultsKey(b)[|RESULTS_PREFIX|..|RESULTS_PREFIX| + |b|] == b;
  }

  lemma ResultsKeyApart(b: string)
    ensures ResultsKey(b) != FEATURES_KEY && ResultsKey(b) != AUTHORED_KEY
  {
    assert ResultsKey(b)[0] == 'd' && FEATURES_KEY[0] == 'f' && AUTHORED_KEY[0] == 'a';
  }

  /** The rendering is a function of the spec: no iteration order shows in it. */
  lemma RenderingUnique(spec: Spec, d1: Data, d2: Data)
    requires RenderedAs(spec, d1) && RenderedAs(spec, d2)
    ensures d1 == d2
  {
    hide ResultsKey, Basename, ListsResults;
    assert d1.Keys == d2.Keys;
    forall k | k in d1 ensures d1[k] == d2[k] {
      if k != FEATURES_KEY && k != AUTHORED_KEY {
        var c :| c in spec.results.Keys && Claims(spec, c, k);
        ListedOnce(d1[k].json, d2[k].json, spec.results[c]);
      }
    }
  }

  ghost function Elements(s: seq<string>): set<string> {
    set x | x in s
  }

  /** A spec that renders has a rendering. */
  lemma SomeRendering(spec: Spec)
    requires Renders(spec)
    ensures exists data :: RenderedAs(spec, data)
  {
    var data := RenderSome(spec, spec.results.Keys);
    assert RenderedAs(spec, data);
  }

  lemma {:induction false} RenderSome(spec: Spec, done: set<string>) returns (data: Data)
    requires Renders(spec) && done <= spec.results.Keys
    ensures RendersTo(spec, done, data)
  {
    hide ResultsKey, Basename, EncodeResults, Renderable, RendersTo;
    if done == {} {
      RenderStart(spec);
      data := map[FEATURES_KEY := RawOrNull(spec.features), AUTHORED_KEY := RawOrNull(spec.authored)];
    } else {
      var c :| c in done;
      var rest := done - {c};
      data := RenderSome(spec, rest);
      assert rest + {c} == done;
      if Basename(c) == "" {
        RenderNothing(spec, rest, data, c);
      } else {
        RenderStep(spec, rest, data, c);
        data := data[ResultsKey(Basename(c)) := EncodeResults(spec.results[c])];
      }
    }
  }

  /** What the loop of RenderData has established after `i` components. */
  ghost predicate Progress(spec: Spec, order: seq<string>, i: nat, data: Data, seen: map<string, string>)
    requires i <= |order|
  {
    && RendersTo(spec, Elements(order[..i]), data)
    && (forall j :: 0 <= j < i && order[j] in spec.results && Basename(order[j]) != "" ==>
          Renderable(spec.results[order[j]]) && Basename(order[j]) in seen && seen[Basename(order[j])] == order[j])
    && (forall b :: b in seen ==> seen[b] in order[..i] && Basename(seen[b]) == b != "")
  }

  lemma ProgressStep(spec: Spec, order: seq<string>, i: nat, data: Data, seen: map<string, string>)
    requires i < |order| && Progress(spec, order, i, data, seen)
    requires order[i] in spec.results && Basename(order[i]) != "" && Basename(order[i]) !in seen
    requires Renderable(spec.results[order[i]])
    ensures Progress(spec, order, i + 1, data[ResultsKey(Basename(order[i])) := EncodeResults(spec.results[order[i]])],
                     seen[Basename(order[i]) := order[i]])
  {
    hide Basename, ResultsKey, EncodeResults, RawOrNull, Renderable, RendersTo;
    var done, done' := Elements(order[..i]), Elements(order[..i + 1]);
    assert order[..i + 1] == order[..i] + [order[i]];
    assert done' == done + {order[i]};
    forall d | d in done && d in spec.results && Basename(d) != "" ensures Basename(d) != Basename(order[i]) {
      var j := IndexOf(d, order[..i]);
    }
    RenderStep(spec, done, data, order[i]);
    var seen' := seen[Basename(order[i]) := order[i]];
    forall b | b in seen' ensures seen'[b] in order[..i + 1] && Basename(seen'[b]) == b != "" {
      if b != Basename(order[i]) {
        assert seen[b] in order[..i];
      }
    }
  }

  lemma ProgressSkip(spec: Spec, order: seq<string>, i: nat, data: Data, seen: map<string, string>)
    requires i < |order| && Progress(spec, order, i, data, seen)
    requires Basename(order[i]) == ""
    ensures Progress(spec, order, i + 1, data, seen)
  {
    hide Basename, ResultsKey, EncodeResults, Renderable, RendersTo;
    assert order[..i + 1] == order[..i] + [order[i]];
    assert Elements(order[..i + 1]) == Elements(order[..i]) + {order[i]};
    RenderNothing(spec, Elements(order[..i]), data, order[i]);
    forall b | b in seen ensures seen[b] in order[..i + 1] {
      assert seen[b] in order[..i];
    }
  }

  lemma ProgressDone(spec: Spec, order: seq<string>, data: Data, seen: map<string, string>)
    requires Enumerates(order, spec.results.Keys) && Progress(spec, order, |order|, data, seen)
    ensures Renders(spec) && RendersTo(spec, spec.results.Keys, data)
  {
    hide Basename, ResultsKey, EncodeResults, RawOrNull, Renderable, RendersTo;
    assert order[..|order|] == order;
    assert Elements(order[..|order|]) == spec.results.Keys;
    forall c | c in spec.results && Basename(c) != ""
      ensures Renderable(spec.results[c]) && Basename(c) in seen && seen[Basename(c)] == c
    {
      var j := IndexOf(c, order);
    }
  }

  /** renderData, with the components in whatever order the map yields them. */
  method RenderData(spec: Spec) returns (rendered: Option<Data>)
    ensures rendered.Some? <==> Renders(spec)
    ensures rendered.Some? ==> RenderedAs(spec, rendered.value)
  {
    hide Basename, ResultsKey, EncodeResults, Renderable, RendersTo;
    var data := map[FEATURES_KEY := RawOrNull(spec.features), AUTHORED_KEY := RawOrNull(spec.authored)];
    RenderStart(spec);
    var seen: map<string, string> := map[];
    var order := IterationOrder(spec.results.Keys);
    assert Elements(order[..0]) == {};
    for i := 0 to |order|
      invariant Progress(spec, order, i, data, seen)
    {
      var component := order[i];
      assert component in order;
      var basename := Basename(component);
      if basename == "" {
        ProgressSkip(spec, order, i, data, seen);
        continue;
      }
      if basename in seen {
        assert seen[basename] in order[..i] && seen[basename] in order;
        return None;
      }
      var ok := RenderComponent(spec.results[component]);
      if !ok {
        return None;
      }
      ProgressStep(spec, order, i, data, seen);
      seen := seen[basename := component];
      data := data[ResultsKey(basename) := EncodeResults(spec.results[component])];
    }
    ProgressDone(spec, order, data, seen);
    rendered := Some(data);
  }

  lemma RenderStart(spec: Spec)
    ensures RendersTo(spec, {}, map[FEATURES_KEY := RawOrNull(spec.features), AUTHORED_KEY := RawOrNull(spec.authored)])
  {
    KeysApart();
  }

  lemma KeysApart()
    ensures FEATURES_KEY != AUTHORED_KEY
  {
    assert FEATURES_KEY[0] == 'f' && AUTHORED_KEY[0] == 'a';
  }

  /** assertUniqueResults and json.Marshal for one component. */
  method RenderComponent(results: seq<DeploymentResult>) returns (ok: bool)
    ensures ok <==> Renderable(results)
  {
    ok := AssertUniqueResults(results);
    ok := ok && All(Encodable, results);
  }

  lemma RenderNothing(spec: Spec, done: set<string>, data: Data, c: string)
    requires RendersTo(spec, done, data) && Basename(c) == ""
    ensures RendersTo(spec, done + {c}, data)
  {
    hide ResultsKey, Basename, RawOrNull, Holds;
    forall k | k in data && k != FEATURES_KEY && k != AUTHORED_KEY
      ensures exists d :: d in done + {c} && Claims(spec, d, k)
    {
      var d :| d in done && Claims(spec, d, k);
      assert d in done + {c};
    }
  }

  lemma RenderStep(spec: Spec, done: set<string>, data: Data, c: string)
    requires RendersTo(spec, done, data) && c in spec.results && Basename(c) != "" && Renderable(spec.results[c])
    requires forall d :: d in done && d in spec.results && Basename(d) != "" ==> Basename(d) != Basename(c)
    ensures RendersTo(spec, done + {c}, data[ResultsKey(Basename(c)) := EncodeResults(spec.results[c])])
  {
    hide ResultsKey, Basename, EncodeResults, RawOrNull, Holds;
    EncodedHolds(spec.results[c]);
    var k := ResultsKey(Basename(c));
    var data' := data[k := EncodeResults(spec.results[c])];
    ResultsKeyApart(Basename(c));
    forall d | d in done + {c} && d in spec.results && Basename(d) != ""
      ensures ResultsKey(Basename(d)) in data' && Holds(data'[ResultsKey(Basename(d))], spec.results[d])
    {
      if d != c && ResultsKey(Basename(d)) == k {
        ResultsKeyInjective(Basename(d), Basename(c));
      }
    }
    forall k' | k' in data' && k' != FEATURES_KEY && k' != AUTHORED_KEY
      ensures exists d :: d in done + {c} && Claims(spec, d, k')
    {
      if k' == k {
        assert Claims(spec, c, k');
      } else {
        var d :| d in done && Claims(spec, d, k');
        assert d in done + {c};
      }
    }
  }
}
