/**
 * Reading a vector-data ConfigMap back: the parse loop of getConfiguration in vector_data_service.go. Go visits the
 * ConfigMap's keys in an unspecified order, and two keys may name the same deployment, so loading is a relation.
 */
module VectorDataLoad {
  import opened Strings
  import opened Bags
  import opened DeploymentResults
  import opened VectorDataFormat

  const FEATURES := "features"
  const AUTHORED := "authored"
  const DEPLOYMENT_RESULTS := "deploymentResults"

  /** The two maps the loop fills: `configuration` and `deploymentResults`. */
  datatype Parsed = Parsed(features: Option<Raw>, authored: Option<Raw>, results: map<string, Raw>)

  /** endsWithSuffix */
  predicate EndsWith(s: string, suffix: string) {
    |s| >= |suffix| && EqualFold(s[|s| - |suffix|..], suffix)
  }

  /** The deployment name in a result key. */
  function DeploymentName(key: string): string
    requires RESULTS_PREFIX <= key
  {
    var name := TrimSpace(key[|RESULTS_PREFIX|..]);
    if EndsWith(name, JSON_SUFFIX) then name[..|name| - |JSON_SUFFIX|] else name
  }

  predicate IsResultKey(key: string) {
    key != FEATURES_KEY && key != AUTHORED_KEY && RESULTS_PREFIX <= key
  }

  /** One turn of the loop; None is the error for an empty deployment name. */
  function Absorb(acc: Parsed, key: string, value: Raw): Option<Parsed> {
    if key == FEATURES_KEY then Some(acc.(features := Some(value)))
    else if key == AUTHORED_KEY then Some(acc.(authored := Some(value)))
    else if !(RESULTS_PREFIX <= key) then Some(acc)
    else if DeploymentName(key) == "" then None
    else Some(acc.(results := acc.results[DeploymentName(key) := value]))
  }

  function Parse(data: Data, order: seq<string>): Option<Parsed>
    requires forall k :: k in order ==> k in data
  {
    if order == [] then Some(Parsed(None, None, map[]))
    else
      var last := order[|order| - 1];
      match Parse(data, order[..|order| - 1])
      case None => None
      case Some(acc) => Absorb(acc, last, data[last])
  }

  ghost predicate MayParse(data: Data, parsed: Option<Parsed>) {
    exists order :: Enumerates(order, data.Keys) && parsed == Parse(data, order)
  }

  lemma {:induction false} ParseStuck(data: Data, order: seq<string>, i: nat)
    requires forall k :: k in order ==> k in data
    requires i <= |order| && Parse(data, order[..i]).None?
    ensures Parse(data, order).None?
    decreases |order|
  {
    if i < |order| {
      assert order[..|order| - 1][..i] == order[..i];
      ParseStuck(data, order[..|order| - 1], i);
    } else {
      assert order[..i] == order;
    }
  }

  method ParseData(data: Data) returns (parsed: Option<Parsed>)
    ensures MayParse(data, parsed)
  {
    hide Absorb;
    var order := IterationOrder(data.Keys);
    var acc := Parsed(None, None, map[]);
    for i := 0 to |order|
      invariant Parse(data, order[..i]) == Some(acc)
    {
      assert order[..i + 1][..i] == order[..i];
      var next := Absorb(acc, order[i], data[order[i]]);
      if next.None? {
        ParseStuck(data, order, i + 1);
        return None;
      }
      acc := next.value;
    }
    assert order[..|order|] == order;
    parsed := Some(acc);
  }

  /** `k` is a result key for deployment `name`. */
  predicate Names(k: string, name: string) {
    IsResultKey(k) && DeploymentName(k) == name
  }

  /** What a parse means, without the loop: each entry comes from a key that names it, and every key has its say. */
  ghost predicate Meaning(data: Data, keys: seq<string>, parsed: Option<Parsed>)
    requires forall k :: k in keys ==> k in data
  {
    && (parsed.None? <==> exists k :: k in keys && Names(k, ""))
    && (parsed.Some? ==>
          && parsed.value.features == (if FEATURES_KEY in keys then Some(data[FEATURES_KEY]) else None)
          && parsed.value.authored == (if AUTHORED_KEY in keys then Some(data[AUTHORED_KEY]) else None)
          && (forall k :: k in keys && IsResultKey(k) ==> DeploymentName(k) in parsed.value.results)
          && (forall name :: name in parsed.value.results ==>
                exists k :: k in keys && Names(k, name) && parsed.value.results[name] == data[k]))
  }

  lemma AbsorbMeaning(data: Data, keys: seq<string>, acc: Parsed, key: string)
    requires (forall k :: k in keys ==> k in data) && key in data
    requires Meaning(data, keys, Some(acc))
    ensures Meaning(data, keys + [key], Absorb(acc, key, data[key]))
  {
    hide DeploymentName;
    KeysApart();
    var parsed := Absorb(acc, key, data[key]);
    var keys' := keys + [key];
    assert forall k :: k in keys' <==> k in keys || k == key;
    if parsed.None? {
      assert Names(key, "");
    } else {
      forall name | name in parsed.value.results
        ensures exists k :: k in keys' && Names(k, name) && parsed.value.results[name] == data[k]
      {
        if IsResultKey(key) && name == DeploymentName(key) {
          assert key in keys' && Names(key, name);
        } else {
          var k :| k in keys && Names(k, name) && acc.results[name] == data[k];
          assert k in keys';
        }
      }
    }
  }

  lemma {:induction false} ParseMeaning(data: Data, order: seq<string>)
    requires forall k :: k in order ==> k in data
    ensures Meaning(data, order, Parse(data, order))
  {
    if order != [] {
      hide Absorb, Meaning;
      var front, last := order[..|order| - 1], order[|order| - 1];
      assert order == front + [last];
      ParseMeaning(data, front);
      if Parse(data, front).None? {
        MeaningStuck(data, front, last);
      } else {
        AbsorbMeaning(data, front, Parse(data, front).value, last);
      }
    }
  }

  lemma MeaningStuck(data: Data, keys: seq<string>, key: string)
    requires (forall k :: k in keys ==> k in data) && key in data
    requires Meaning(data, keys, None)
    ensures Meaning(data, keys + [key], None)
  {
    hide DeploymentName;
    var k :| k in keys && Names(k, "");
    assert k in keys + [key];
  }

  // ----- when the order shows -----

  /** Keys that name the same deployment carry the same value. */
  ghost predicate NamesAgree(data: Data) {
    forall k1, k2 :: k1 in data && k2 in data && IsResultKey(k1) && IsResultKey(k2) && DeploymentName(k1) == DeploymentName(k2) ==>
      data[k1] == data[k2]
  }

  /** The order of the keys shows in the result exactly when two keys dispute one deployment name. */
  lemma ParsesOnce(data: Data)
    ensures (forall p, q :: MayParse(data, p) && MayParse(data, q) ==> p == q)
            <==> (exists k :: k in data && Names(k, "")) || NamesAgree(data)
  {
    hide DeploymentName, Parse;
    forall p, q | MayParse(data, p) && MayParse(data, q) && ((exists k :: k in data && Names(k, "")) || NamesAgree(data))
      ensures p == q
    {
      AgreeingParse(data, p, q);
    }
    if !(exists k :: k in data && Names(k, "")) && !NamesAgree(data) {
      var k1, k2 :| k1 in data && k2 in data && IsResultKey(k1) && IsResultKey(k2)
        && DeploymentName(k1) == DeploymentName(k2) && data[k1] != data[k2];
      var p := LastWins(data, k1);
      var q := LastWins(data, k2);
    }
  }

  lemma AgreeingParse(data: Data, p: Option<Parsed>, q: Option<Parsed>)
    requires MayParse(data, p) && MayParse(data, q)
    requires (exists k :: k in data && Names(k, "")) || NamesAgree(data)
    ensures p == q
  {
    hide DeploymentName, Parse;
    MayParseMeaning(data, p);
    MayParseMeaning(data, q);
    if p.Some? && q.Some? {
      assert p.value.results.Keys == q.value.results.Keys;
      assert p.value.results == q.value.results;
    }
  }

  /** The order-free part of a parse's meaning, in terms of the data alone. */
  lemma MayParseMeaning(data: Data, parsed: Option<Parsed>)
    requires MayParse(data, parsed)
    ensures parsed.None? <==> exists k :: k in data && Names(k, "")
    ensures parsed.Some? ==>
              && parsed.value.features == (if FEATURES_KEY in data then Some(data[FEATURES_KEY]) else None)
              && parsed.value.authored == (if AUTHORED_KEY in data then Some(data[AUTHORED_KEY]) else None)
              && (forall k :: k in data && IsResultKey(k) ==> DeploymentName(k) in parsed.value.results)
              && (forall name :: name in parsed.value.results ==>
                    exists k :: k in data && Names(k, name) && parsed.value.results[name] == data[k])
  {
    hide DeploymentName, Parse;
    var order :| Enumerates(order, data.Keys) && parsed == Parse(data, order);
    ParseMeaning(data, order);
  }

  /** Some order visits `k` last, and then `k`'s value is the one that stays. */
  lemma LastWins(data: Data, k: string) returns (parsed: Option<Parsed>)
    requires k in data && IsResultKey(k)
    requires !exists x :: x in data && Names(x, "")
    ensures MayParse(data, parsed) && parsed.Some?
    ensures DeploymentName(k) in parsed.value.results && parsed.value.results[DeploymentName(k)] == data[k]
  {
    hide DeploymentName;
    var front := SomeOrder(data.Keys - {k});
    var order := front + [k];
    assert Enumerates(order, data.Keys);
    parsed := Parse(data, order);
    assert order[..|order| - 1] == front;
    assert MayParse(data, parsed);
    ParseMeaning(data, order);
  }

  // ----- the combined document -----

  datatype Load = LoadFailed | NotFound | Loaded(document: Json)

  predicate IsJson(raw: Option<Raw>) {
    raw.Some? ==> raw.value.JsonText?
  }

  predicate Marshals(p: Parsed) {
    IsJson(p.features) && IsJson(p.authored) && forall name :: name in p.results ==> p.results[name].JsonText?
  }

  function Field(key: string, value: Option<Raw>): map<string, Json>
    requires IsJson(value)
  {
    if value.None? then map[] else map[key := value.value.json]
  }

  function Document(p: Parsed): Json
    requires Marshals(p)
  {
    Obj(Field(FEATURES, p.features) + Field(AUTHORED, p.authored)
        + (if p.results == map[] then map[]
           else map[DEPLOYMENT_RESULTS := Obj(map name | name in p.results :: p.results[name].json)]))
  }

  function Combine(parsed: Option<Parsed>): Load {
    match parsed
    case None => LoadFailed
    case Some(p) =>
      if p == Parsed(None, None, map[]) then NotFound
      else if Marshals(p) then Loaded(Document(p))
      else LoadFailed
  }

  /** What loading a ConfigMap may give; None is a ConfigMap that does not exist. */
  ghost predicate MayLoad(data: Option<Data>, load: Load) {
    match data
    case None => load == NotFound
    case Some(d) => exists parsed :: MayParse(d, parsed) && load == Combine(parsed)
  }

  method LoadData(data: Option<Data>) returns (load: Load)
    ensures MayLoad(data, load)
  {
    if data.None? {
      return NotFound;
    }
    var parsed := ParseData(data.value);
    load := Combine(parsed);
  }

  /** Loading always has an outcome. */
  lemma SomeLoad(data: Data) returns (load: Load)
    ensures MayLoad(Some(data), load)
  {
    hide Parse, Combine;
    var order := SomeOrder(data.Keys);
    load := Combine(Parse(data, order));
    assert MayParse(data, Parse(data, order));
  }

  /** Any ConfigMap, not only rendered ones: when a load finds nothing, when it fails, and what it says otherwise. */
  lemma LoadMeans(data: Data, load: Load)
    requires MayLoad(Some(data), load)
    ensures load == NotFound <==> forall k :: k in data ==> k != FEATURES_KEY && k != AUTHORED_KEY && !(RESULTS_PREFIX <= k)
    ensures (exists k :: k in data && Names(k, "")) ==> load == LoadFailed
    ensures (exists k :: k in {FEATURES_KEY, AUTHORED_KEY} && k in data && !data[k].JsonText?) ==> load == LoadFailed
    ensures load.Loaded? ==>
              && load.document.Obj?
              && (FEATURES in load.document.fields <==> FEATURES_KEY in data)
              && (AUTHORED in load.document.fields <==> AUTHORED_KEY in data)
              && (FEATURES_KEY in data ==> data[FEATURES_KEY] == JsonText(load.document.fields[FEATURES]))
              && (AUTHORED_KEY in data ==> data[AUTHORED_KEY] == JsonText(load.document.fields[AUTHORED]))
              && (DEPLOYMENT_RESULTS in load.document.fields <==> exists k :: k in data && IsResultKey(k))
  {
    hide DeploymentName, MayParse, Document;
    KeysApart();
    var parsed :| MayParse(data, parsed) && load == Combine(parsed);
    MayParseMeaning(data, parsed);
    if parsed.Some? {
      assert parsed.value.results != map[] <==> exists k :: k in data && IsResultKey(k) by {
        if parsed.value.results != map[] {
          var name :| name in parsed.value.results;
          var k :| k in data && Names(k, name) && parsed.value.results[name] == data[k];
        }
      }
      if Marshals(parsed.value) {
        DocumentFields(parsed.value);
      }
    } else {
      var k :| k in data && Names(k, "");
    }
  }

  // ----- round trip -----

  ghost predicate HasResults(spec: Spec) {
    exists c :: c in spec.results && Basename(c) != ""
  }

  function Payload(raw: Option<Raw>): Json
    requires IsJson(raw)
  {
    match raw
    case None => Null
    case Some(JsonText(json)) => json
  }

  /** `results` holds exactly the basenames of the spec's components, each with the array of its results. */
  ghost predicate CarriesResults(spec: Spec, results: map<string, Json>) {
    && (forall c :: c in spec.results && Basename(c) != "" ==>
          Basename(c) in results && ListsResults(results[Basename(c)], spec.results[c]))
    && (forall b :: b in results ==> exists c :: c in spec.results && Basename(c) == b != "")
  }

  /** `document` says what `spec` says and nothing else. */
  ghost predicate Carries(spec: Spec, document: Json)
    requires IsJson(spec.features) && IsJson(spec.authored)
  {
    && document.Obj?
    && (forall k :: k in document.fields <==> k == FEATURES || k == AUTHORED || (k == DEPLOYMENT_RESULTS && HasResults(spec)))
    && document.fields[FEATURES] == Payload(spec.features)
    && document.fields[AUTHORED] == Payload(spec.authored)
    && (HasResults(spec) ==>
          document.fields[DEPLOYMENT_RESULTS].Obj? && CarriesResults(spec, document.fields[DEPLOYMENT_RESULTS].fields))
  }

  /** No basename starts with white space. Every valid ConfigMap key satisfies this. */
  ghost predicate Printable(spec: Spec) {
    forall c :: c in spec.results && Basename(c) != "" ==> !IsSpace(Basename(c)[0])
  }

  /** Stripping one ".json" undoes the printer, also for a basename that itself ends in ".json". */
  lemma NameRoundTrip(b: string)
    requires b != "" && !IsSpace(b[0])
    ensures IsResultKey(ResultsKey(b)) && DeploymentName(ResultsKey(b)) == b
  {
    ResultsKeyApart(b);
    var rest := b + JSON_SUFFIX;
    assert ResultsKey(b)[|RESULTS_PREFIX|..] == rest;
    assert rest[0] == b[0] && rest[|rest| - 1] == 'n';
    assert TrimSpace(rest) == rest;
    assert rest[|rest| - |JSON_SUFFIX|..] == JSON_SUFFIX;
  }

  /** The suffix may be missing or in any case, and white space around the name does not count. */
  lemma NameVariants(before: string, b: string, suffix: string, after: string)
    requires b != "" && !IsSpace(b[0]) && !IsSpace(b[|b| - 1])
    requires (forall i :: 0 <= i < |before| ==> IsSpace(before[i])) && (forall i :: 0 <= i < |after| ==> IsSpace(after[i]))
    requires EqualFold(suffix, JSON_SUFFIX)
    ensures DeploymentName(RESULTS_PREFIX + before + (b + suffix) + after) == b
    ensures !EndsWith(b, JSON_SUFFIX) ==> DeploymentName(RESULTS_PREFIX + before + b + after) == b
  {
    hide TrimSpace;
    assert |suffix| == 5 && Fold(suffix[4]) == 'n';
    var name := b + suffix;
    assert name[0] == b[0] && name[|name| - 1] == suffix[4];
    TrimsAround(before, name, after);
    TrimsAround(before, b, after);
    assert (RESULTS_PREFIX + before + name + after)[|RESULTS_PREFIX|..] == before + name + after;
    assert (RESULTS_PREFIX + before + b + after)[|RESULTS_PREFIX|..] == before + b + after;
    assert name[|name| - 5..] == suffix;
  }

  lemma {:induction false} TrimsAround(before: string, name: string, after: string)
    requires name != "" && !IsSpace(name[0]) && !IsSpace(name[|name| - 1])
    requires (forall i :: 0 <= i < |before| ==> IsSpace(before[i])) && (forall i :: 0 <= i < |after| ==> IsSpace(after[i]))
    ensures TrimSpace(before + name + after) == name
    decreases |before| + |after|
  {
    hide IsSpace;
    var s := before + name + after;
    if before != [] {
      assert s[0] == before[0] && s[1..] == before[1..] + name + after;
      TrimsAround(before[1..], name, after);
    } else if after != [] {
      assert s[0] == name[0] && s[|s| - 1] == after[|after| - 1];
      assert s[..|s| - 1] == before + name + after[..|after| - 1];
      TrimsAround(before, name, after[..|after| - 1]);
    } else {
      assert s == name;
    }
  }

  lemma {:induction false} TrimSpaceHead(s: string)
    ensures TrimSpace(s) != "" ==> !IsSpace(TrimSpace(s)[0])
    decreases |s|
  {
    if |s| > 0 && IsSpace(s[0]) {
      TrimSpaceHead(s[1..]);
    } else if |s| > 0 && IsSpace(s[|s| - 1]) {
      TrimSpaceHead(s[..|s| - 1]);
    }
  }

  /** No key names a deployment that starts with white space. */
  lemma NameHead(k: string)
    requires RESULTS_PREFIX <= k
    ensures DeploymentName(k) != "" ==> !IsSpace(DeploymentName(k)[0])
  {
    TrimSpaceHead(k[|RESULTS_PREFIX|..]);
  }

  lemma ParsedResults(spec: Spec, data: Data, parsed: Option<Parsed>)
    requires RenderedAs(spec, data) && MayParse(data, parsed) && Printable(spec)
    ensures parsed.Some?
    ensures parsed.value.features == Some(RawOrNull(spec.features)) && parsed.value.authored == Some(RawOrNull(spec.authored))
    ensures forall c :: c in spec.results && Basename(c) != "" ==>
              Basename(c) in parsed.value.results && Holds(parsed.value.results[Basename(c)], spec.results[c])
    ensures forall b :: b in parsed.value.results ==> exists c :: c in spec.results && Basename(c) == b != ""
  {
    hide DeploymentName, ResultsKey, Basename, Holds, RawOrNull, Parse, MayParse, Renderable, IsSpace;
    MayParseMeaning(data, parsed);
    forall k | k in data && IsResultKey(k)
      ensures exists c :: c in spec.results && Basename(c) != "" && k == ResultsKey(Basename(c)) && DeploymentName(k) == Basename(c)
    {
      var c :| c in spec.results.Keys && Claims(spec, c, k);
      NameRoundTrip(Basename(c));
    }
    forall c | c in spec.results && Basename(c) != ""
      ensures Basename(c) in parsed.value.results && Holds(parsed.value.results[Basename(c)], spec.results[c])
    {
      NameRoundTrip(Basename(c));
      var k :| k in data && Names(k, Basename(c)) && parsed.value.results[Basename(c)] == data[k];
    }
  }

  /**
   * Rendering and loading are inverse: whatever order the keys come in, loading a rendered spec yields exactly that
   * spec's document, or fails when a payload is not JSON.
   */
  lemma RenderLoadRoundTrip(spec: Spec, data: Data, load: Load)
    requires RenderedAs(spec, data) && MayLoad(Some(data), load) && Printable(spec)
    ensures load == LoadFailed || (IsJson(spec.features) && IsJson(spec.authored) && load.Loaded? && Carries(spec, load.document))
    ensures load == LoadFailed <==> !IsJson(spec.features) || !IsJson(spec.authored)
  {
    hide Basename, Holds, MayParse, RenderedAs, Printable, CarriesResults, HasResults;
    var parsed :| MayParse(data, parsed) && load == Combine(parsed);
    ParsedResults(spec, data, parsed);
    if IsJson(spec.features) && IsJson(spec.authored) {
      ResultsDocument(spec, parsed.value);
    }
  }

  lemma FieldsApart()
    ensures FEATURES != AUTHORED && FEATURES != DEPLOYMENT_RESULTS && AUTHORED != DEPLOYMENT_RESULTS
  {
    assert FEATURES[0] == 'f' && AUTHORED[0] == 'a' && DEPLOYMENT_RESULTS[0] == 'd';
  }

  /** The fields of the combined document. */
  lemma DocumentFields(p: Parsed)
    requires Marshals(p)
    ensures Document(p).Obj?
    ensures var fields := Document(p).fields;
            && (FEATURES in fields <==> p.features.Some?) && (AUTHORED in fields <==> p.authored.Some?)
            && (DEPLOYMENT_RESULTS in fields <==> p.results != map[])
            && (forall k :: k in fields ==> k == FEATURES || k == AUTHORED || k == DEPLOYMENT_RESULTS)
            && (p.features.Some? ==> fields[FEATURES] == p.features.value.json)
            && (p.authored.Some? ==> fields[AUTHORED] == p.authored.value.json)
            && (p.results != map[] ==>
                  fields[DEPLOYMENT_RESULTS] == Obj(map name | name in p.results :: p.results[name].json))
  {
    FieldsApart();
  }

  lemma ResultsDocument(spec: Spec, p: Parsed)
    requires IsJson(spec.features) && IsJson(spec.authored)
    requires p.features == Some(RawOrNull(spec.features)) && p.authored == Some(RawOrNull(spec.authored))
    requires forall c :: c in spec.results && Basename(c) != "" ==>
              Basename(c) in p.results && Holds(p.results[Basename(c)], spec.results[c])
    requires forall b :: b in p.results ==> exists c :: c in spec.results && Basename(c) == b != ""
    ensures Marshals(p) && Carries(spec, Document(p))
  {
    hide Basename, Document;
    assert Marshals(p);
    DocumentFields(p);
    assert p.results == map[] <==> !HasResults(spec) by {
      if HasResults(spec) {
        var c :| c in spec.results && Basename(c) != "";
        assert Basename(c) in p.results;
      }
    }
  }

  /** A document that carries a spec is determined by it. */
  lemma CarriesUnique(spec: Spec, d1: Json, d2: Json)
    requires IsJson(spec.features) && IsJson(spec.authored)
    requires Carries(spec, d1) && Carries(spec, d2)
    ensures d1 == d2
  {
    hide Basename, ListsResults;
    if HasResults(spec) {
      var m1, m2 := d1.fields[DEPLOYMENT_RESULTS].fields, d2.fields[DEPLOYMENT_RESULTS].fields;
      assert m1.Keys == m2.Keys;
      forall b | b in m1 ensures m1[b] == m2[b] {
        var c :| c in spec.results && Basename(c) == b != "";
        ListedOnce(m1[b], m2[b], spec.results[c]);
      }
      assert m1 == m2;
    }
    assert d1.fields == d2.fields;
  }

  /** Printable is needed: a basename that starts with white space never comes back. */
  lemma UnprintableLost(spec: Spec, data: Data, load: Load)
    requires RenderedAs(spec, data) && MayLoad(Some(data), load) && !Printable(spec)
    requires IsJson(spec.features) && IsJson(spec.authored)
    ensures !(load.Loaded? && Carries(spec, load.document))
  {
    hide Basename, ListsResults, MayParse, RenderedAs, DeploymentName, IsSpace, Document;
    var c :| c in spec.results && Basename(c) != "" && IsSpace(Basename(c)[0]);
    var parsed :| MayParse(data, parsed) && load == Combine(parsed);
    MayParseMeaning(data, parsed);
    if load.Loaded? && Carries(spec, load.document) {
      assert HasResults(spec);
      DocumentFields(parsed.value);
      assert Basename(c) in parsed.value.results;
      var k :| k in data && Names(k, Basename(c));
      NameHead(k);
    }
  }
}
