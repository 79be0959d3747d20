/**
 * OFREP flag evaluation (vector_data_service.go): the single and the bulk endpoint over one loaded configuration.
 * Decoding a string as JSON and hashing a response are parameters.
 */
module FlagEvaluation {
  import opened Strings
  import opened Bags
  import opened DeploymentResults
  import opened VectorDataFormat
  import opened VectorDataLoad
  import L = VectorDataLifetime
  import C = VectorDataCache
  import S = VectorDataSystem

  const TARGETING_KEY := "targetingKey"

  datatype Request = Malformed | Request(context: map<string, Json>)

  type Decoder = string -> Option<Json>

  /** parseFlagValue: None is Go's nil. A string that holds JSON stands for that JSON. */
  function FlagValue(json: Json, decode: Decoder): Option<Json> {
    match json
    case Number(Overflow(literal)) => Some(Str(literal))
    case Number(_) => Some(json)
    case Str(s) =>
      (match decode(s)
       case None => Some(json)
       case Some(Null) => None
       case Some(value) => Some(value))
    case Bool(_) => Some(json)
    case _ => None
  }

  /** getAllFeatures: None is an error, a document without features has none. */
  function AllFeatures(document: Json): Option<map<string, Json>> {
    match document
    case Null => Some(map[])
    case Obj(fields) =>
      if FEATURES !in fields then Some(map[])
      else if fields[FEATURES].Obj? then Some(fields[FEATURES].fields)
      else None
    case _ => None
  }

  datatype ErrorCode = ParseError | TargetingKeyMissing

  /** A single lookup: a refused request, an internal error, FLAG_NOT_FOUND, or a value. */
  datatype Lookup = BadRequest(code: ErrorCode) | ServerError | FlagNotFound | Found(value: Json)

  function Looked(value: Option<Json>): Lookup {
    match value
    case None => FlagNotFound
    case Some(v) => Found(v)
  }

  /**
   * What a feature evaluates to. Booleans, int64 and float64 numbers are found as they are and any other number as its
   * literal; a string is found as itself when it is not JSON and else as that JSON, unless that is null; null, arrays
   * and objects are not found.
   */
  ghost predicate Evaluates(json: Json, decode: Decoder, lookup: Lookup) {
    && (json.Bool? ==> lookup == Found(json))
    && (json.Number? && !json.n.Overflow? ==> lookup == Found(json))
    && (json.Number? && json.n.Overflow? ==> lookup == Found(Str(json.n.literal)))
    && (json.Str? && decode(json.s).None? ==> lookup == Found(json))
    && (json.Str? && decode(json.s) == Some(Null) ==> lookup == FlagNotFound)
    && (json.Str? && decode(json.s).Some? && decode(json.s) != Some(Null) ==> lookup == Found(decode(json.s).value))
    && (json.Null? || json.Arr? || json.Obj? ==> lookup == FlagNotFound)
  }

  lemma FlagValueMeans(json: Json, decode: Decoder)
    ensures Evaluates(json, decode, Looked(FlagValue(json, decode)))
  {
  }

  /** getFlagValueOrConfiguration and the rest of handleEvaluateSingle, once the vector is known. */
  function LookUp(load: Load, vector: string, key: string, decode: Decoder): Lookup {
    match load
    case LoadFailed => ServerError
    case NotFound => FlagNotFound
    case Loaded(document) =>
      if EqualFold(key, vector) then Found(document)
      else
        match AllFeatures(document)
        case None => ServerError
        case Some(features) => Looked(if key in features then FlagValue(features[key], decode) else None)
  }

  function Target(request: Request): Option<string> {
    if request.Request? && TARGETING_KEY in request.context && request.context[TARGETING_KEY].Str?
    then Some(request.context[TARGETING_KEY].s) else None
  }

  /** handleEvaluateSingle; `configuration` is what getConfiguration returns for a vector. */
  function EvaluateSingle(request: Request, key: string, configuration: string -> Load, decode: Decoder): Lookup {
    if request.Malformed? then BadRequest(ParseError)
    else match Target(request)
      case None => BadRequest(TargetingKeyMissing)
      case Some(vector) => LookUp(configuration(vector), vector, key, decode)
  }

  /**
   * The single lookup in full: the vector's own name, in any case, answers the whole document; every other key answers
   * what its feature evaluates to, and is not found when there is no such feature or there are no features at all.
   */
  lemma LookUpMeans(load: Load, vector: string, key: string, decode: Decoder)
    ensures
      var lookup := LookUp(load, vector, key, decode);
      && (load == LoadFailed ==> lookup == ServerError)
      && (load == NotFound ==> lookup == FlagNotFound)
      && (load.Loaded? && EqualFold(key, vector) ==> lookup == Found(load.document))
      && (load.Loaded? && load.document.Obj? && !EqualFold(key, vector) ==>
            var fields := load.document.fields;
            && (FEATURES !in fields ==> lookup == FlagNotFound)
            && (FEATURES in fields && !fields[FEATURES].Obj? ==> lookup == ServerError)
            && (FEATURES in fields && fields[FEATURES].Obj? && key !in fields[FEATURES].fields ==> lookup == FlagNotFound)
            && (FEATURES in fields && fields[FEATURES].Obj? && key in fields[FEATURES].fields ==>
                  Evaluates(fields[FEATURES].fields[key], decode, lookup)))
  {
    hide EqualFold, FlagValue, Evaluates;
    if load.Loaded? && load.document.Obj? && FEATURES in load.document.fields && load.document.fields[FEATURES].Obj?
       && key in load.document.fields[FEATURES].fields {
      FlagValueMeans(load.document.fields[FEATURES].fields[key], decode);
    }
  }

  // ----- bulk -----

  /** A FlagResponse, or an ErrorResponse with FLAG_NOT_FOUND. */
  datatype Entry = Flag(key: string, value: Json) | MissingFlag(key: string)

  function EntryOf(key: string, json: Json, decode: Decoder): Entry {
    match FlagValue(json, decode)
    case None => MissingFlag(key)
    case Some(value) => Flag(key, value)
  }

  /** The lookup an entry reports. */
  function Shown(entry: Entry): Lookup {
    match entry
    case Flag(_, value) => Found(value)
    case MissingFlag(_) => FlagNotFound
  }

  function EntryKey(entry: Entry): string {
    entry.key
  }

  function Self(s: string): string {
    s
  }

  /** One entry per feature, strictly ascending by key, each saying what that feature evaluates to. */
  ghost predicate Lists(features: map<string, Json>, decode: Decoder, entries: seq<Entry>) {
    && StrictlySortedBy(EntryKey, entries)
    && (forall k :: k in features <==> exists i :: 0 <= i < |entries| && entries[i].key == k)
    && (forall i :: 0 <= i < |entries| ==>
          entries[i].key in features && entries[i] == EntryOf(entries[i].key, features[entries[i].key], decode))
  }

  /** Each entry of a list shows what its feature evaluates to. */
  lemma ListsMean(features: map<string, Json>, decode: Decoder, entries: seq<Entry>)
    requires Lists(features, decode, entries)
    ensures forall i :: 0 <= i < |entries| ==>
              entries[i].key in features && Evaluates(features[entries[i].key], decode, Shown(entries[i]))
  {
    hide Evaluates, FlagValue, StrictlySortedBy;
    forall i | 0 <= i < |entries| ensures Evaluates(features[entries[i].key], decode, Shown(entries[i])) {
      FlagValueMeans(features[entries[i].key], decode);
    }
  }

  /** The loop of handleEvaluateBulk. */
  method ListFlags(features: map<string, Json>, decode: Decoder) returns (flags: seq<Entry>)
    ensures Lists(features, decode, flags)
    ensures forall i :: 0 <= i < |flags| ==>
              flags[i].key in features && Evaluates(features[flags[i].key], decode, Shown(flags[i]))
  {
    hide FlagValue;
    var order := IterationOrder(features.Keys);
    var keys := Sort(Self, order);
    DistinctBag(Self, order, keys);
    DistinctSorted(Self, keys);
    forall k ensures k in keys <==> k in features { BagMembers(order, keys, k); }
    flags := [];
    for i := 0 to |keys|
      invariant |flags| == i
      invariant forall j :: 0 <= j < i ==> keys[j] in features && flags[j] == EntryOf(keys[j], features[keys[j]], decode)
      invariant forall j :: 0 <= j < i ==> flags[j].key == keys[j]
    {
      assert keys[i] in keys;
      var value := FlagValue(features[keys[i]], decode);
      flags := flags + [if value.None? then MissingFlag(keys[i]) else Flag(keys[i], value.value)];
    }
    ListsKeys(features, decode, keys, flags);
    ListsMean(features, decode, flags);
  }

  lemma ListsKeys(features: map<string, Json>, decode: Decoder, keys: seq<string>, flags: seq<Entry>)
    requires StrictlySortedBy(Self, keys) && forall k :: k in keys <==> k in features
    requires |flags| == |keys| && forall j :: 0 <= j < |keys| ==> flags[j].key == keys[j]
    requires forall j :: 0 <= j < |keys| ==> keys[j] in features && flags[j] == EntryOf(keys[j], features[keys[j]], decode)
    ensures Lists(features, decode, flags)
  {
    hide FlagValue, LexLess, EntryOf;
    forall i, j | 0 <= i < j < |flags| ensures LexLess(EntryKey(flags[i]), EntryKey(flags[j])) {
      assert LexLess(Self(keys[i]), Self(keys[j]));
    }
    forall k ensures k in features <==> exists i :: 0 <= i < |flags| && flags[i].key == k {
      if k in features {
        var i := IndexOf(k, keys);
        assert flags[i].key == k;
      }
    }
  }

  /** The bulk list is a function of the features: no iteration order shows in it. */
  lemma ListsOnce(features: map<string, Json>, decode: Decoder, a: seq<Entry>, b: seq<Entry>)
    requires Lists(features, decode, a) && Lists(features, decode, b)
    ensures a == b
  {
    hide FlagValue, LexLess, EntryOf;
    var members := set e | e in a;
    ListsDistinct(features, decode, a);
    ListsDistinct(features, decode, b);
    ListsSame(features, decode, a, b);
    ListsSame(features, decode, b, a);
    EnumerationBag(a, b, members);
    SortedUnique(EntryKey, a, b);
  }

  lemma ListsDistinct(features: map<string, Json>, decode: Decoder, a: seq<Entry>)
    requires Lists(features, decode, a)
    ensures SortedBy(EntryKey, a) && KeyDetermines(EntryKey, a)
    ensures forall i, j :: 0 <= i < j < |a| ==> a[i] != a[j]
  {
    hide FlagValue, EntryOf;
    forall i, j | 0 <= i < j < |a| ensures !LexLess(EntryKey(a[j]), EntryKey(a[i])) && EntryKey(a[i]) != EntryKey(a[j]) {
      LexTrichotomy(EntryKey(a[i]), EntryKey(a[j]));
    }
  }

  lemma ListsSame(features: map<string, Json>, decode: Decoder, a: seq<Entry>, b: seq<Entry>)
    requires Lists(features, decode, a) && Lists(features, decode, b)
    ensures forall e :: e in a ==> e in b
  {
    hide FlagValue, LexLess, EntryOf;
    forall e | e in a ensures e in b {
      var i := IndexOf(e, a);
      assert a[i].key in features;
      var j :| 0 <= j < |b| && b[j].key == a[i].key;
    }
  }

  /** A bulk evaluation, before the ETag: an internal error or a list. */
  datatype Bulk = BulkError | Flags(entries: seq<Entry>)

  ghost predicate MayList(load: Load, decode: Decoder, bulk: Bulk) {
    match load
    case LoadFailed => bulk == BulkError
    case NotFound => bulk == Flags([])
    case Loaded(document) =>
      match AllFeatures(document)
      case None => bulk == BulkError
      case Some(features) => bulk.Flags? && Lists(features, decode, bulk.entries)
  }

  method EvaluateFeatures(load: Load, decode: Decoder) returns (bulk: Bulk)
    ensures MayList(load, decode, bulk)
  {
    hide Lists, FlagValue;
    match load
    case LoadFailed => return BulkError;
    case NotFound => return Flags([]);
    case Loaded(document) =>
      var features := AllFeatures(document);
      if features.None? {
        return BulkError;
      }
      var entries := ListFlags(features.value, decode);
      bulk := Flags(entries);
  }

  /**
   * The two endpoints agree: for every key other than the vector's own name, the single lookup finds a value exactly
   * when the bulk list carries it, finds nothing exactly when the list says so or leaves the key out, and fails
   * exactly when the bulk evaluation fails.
   */
  lemma BulkAndSingleAgree(load: Load, vector: string, key: string, decode: Decoder, bulk: Bulk)
    requires MayList(load, decode, bulk) && !EqualFold(key, vector)
    ensures LookUp(load, vector, key, decode) == ServerError <==> bulk == BulkError
    ensures forall v :: LookUp(load, vector, key, decode) == Found(v) <==> bulk.Flags? && Flag(key, v) in bulk.entries
    ensures LookUp(load, vector, key, decode) == FlagNotFound <==>
            bulk.Flags? && (MissingFlag(key) in bulk.entries || forall i :: 0 <= i < |bulk.entries| ==> bulk.entries[i].key != key)
  {
    hide FlagValue, StrictlySortedBy;
    if load.Loaded? && AllFeatures(load.document).Some? {
      var features := AllFeatures(load.document).value;
      if key in features {
        var i :| 0 <= i < |bulk.entries| && bulk.entries[i].key == key;
        assert bulk.entries[i] in bulk.entries;
        forall e | e in bulk.entries && e.key == key ensures e == EntryOf(key, features[key], decode) {
          var j := IndexOf(e, bulk.entries);
        }
      } else {
        forall e | e in bulk.entries ensures e.key != key {
          var j := IndexOf(e, bulk.entries);
        }
      }
    }
  }

  /**
   * What a materialised spec answers: its features are served exactly when they are a JSON object. A VectorData
   * without features renders them as null, so every lookup but the vector's own name is an internal error.
   */
  lemma SpecFeatures(spec: Spec, document: Json)
    requires IsJson(spec.features) && IsJson(spec.authored) && Carries(spec, document)
    ensures AllFeatures(document)
            == (if spec.features.Some? && spec.features.value.json.Obj? then Some(spec.features.value.json.fields) else None)
    ensures forall vector, key, decode: Decoder :: spec.features.None? && !EqualFold(key, vector) ==>
              LookUp(Loaded(document), vector, key, decode) == ServerError
  {
    hide CarriesResults, HasResults;
    assert FEATURES in document.fields;
  }

  /** No answer carries a null value, which OFREP clients could not tell from a missing flag. */
  lemma ValuesAreNotNull(data: Option<Data>, load: Load, vector: string, key: string, decode: Decoder, bulk: Bulk)
    requires MayLoad(data, load) && MayList(load, decode, bulk)
    ensures LookUp(load, vector, key, decode) != Found(Null)
    ensures bulk.Flags? ==> forall i :: 0 <= i < |bulk.entries| ==> bulk.entries[i] != Flag(bulk.entries[i].key, Null)
  {
    hide MayParse, StrictlySortedBy;
  }

  /**
   * From spec to flag: a vector that reports Ready and is not being deleted answers every key but its own name from
   * the features of its current spec, as long as its loads are stored in time and no event for it is outstanding.
   */
  lemma FlagsComeFromSpec(states: seq<S.System>, steps: seq<S.Step>, i: nat, vector: string, load: Load,
                          features: map<string, Json>, key: string, decode: Decoder)
    requires S.Run(states, steps) && i < |states| && S.StoredInTime(states, steps, vector, i)
    requires C.Answers(states[i].service, vector, load) && !C.Pending(states[i].service, vector)
    requires vector in states[i].vectors && !states[i].vectors[vector].deleting
    requires states[i].vectors[vector].ready == Some(L.READY)
    requires states[i].vectors[vector].spec.features == Some(JsonText(Obj(features)))
    requires IsJson(states[i].vectors[vector].spec.authored) && !EqualFold(key, vector)
    ensures key !in features ==> LookUp(load, vector, key, decode) == FlagNotFound
    ensures key in features ==> Evaluates(features[key], decode, LookUp(load, vector, key, decode))
  {
    hide S.Next, S.Timely, C.Answers, C.Pending, Carries, FlagValue, Evaluates;
    S.AnswersAreTruthful(states, steps, i, vector, load);
    SpecFeatures(states[i].vectors[vector].spec, load.document);
    if key in features {
      FlagValueMeans(features[key], decode);
    }
  }

  /** And asked for its own name it answers the document of that spec. */
  lemma OwnNameAnswersSpec(states: seq<S.System>, steps: seq<S.Step>, i: nat, vector: string, load: Load, key: string, decode: Decoder)
    requires S.Run(states, steps) && i < |states| && S.StoredInTime(states, steps, vector, i)
    requires C.Answers(states[i].service, vector, load) && !C.Pending(states[i].service, vector)
    requires vector in states[i].vectors && !states[i].vectors[vector].deleting
    requires states[i].vectors[vector].ready == Some(L.READY) && S.PayloadsAreJson(states[i].vectors[vector])
    requires EqualFold(key, vector)
    ensures LookUp(load, vector, key, decode).Found?
    ensures Carries(states[i].vectors[vector].spec, LookUp(load, vector, key, decode).value)
  {
    hide S.Next, S.Timely, C.Answers, C.Pending, Carries, EqualFold;
    S.AnswersAreTruthful(states, steps, i, vector, load);
  }

  // ----- ETags -----

  datatype Response = Refused(code: ErrorCode) | InternalError | NotModified | Ok(entries: seq<Entry>, etag: string)

  /** handleEvaluateBulk; `hash` is the quoted SHA-1 of the marshalled list. */
  method EvaluateBulk(request: Request, ifNoneMatch: string, configuration: string -> Load, decode: Decoder,
                      hash: seq<Entry> -> string) returns (response: Response)
    ensures MayRespond(request, ifNoneMatch, configuration, decode, hash, response)
  {
    hide MayList;
    if request.Malformed? {
      return Refused(ParseError);
    }
    var vector := Target(request);
    if vector.None? {
      return Refused(TargetingKeyMissing);
    }
    var bulk := EvaluateFeatures(configuration(vector.value), decode);
    if bulk.BulkError? {
      return InternalError;
    }
    var etag := hash(bulk.entries);
    response := if ifNoneMatch == etag then NotModified else Ok(bulk.entries, etag);
  }

  function Tagged(bulk: Bulk, ifNoneMatch: string, hash: seq<Entry> -> string): Response {
    match bulk
    case BulkError => InternalError
    case Flags(entries) => if ifNoneMatch == hash(entries) then NotModified else Ok(entries, hash(entries))
  }

  ghost predicate MayRespond(request: Request, ifNoneMatch: string, configuration: string -> Load, decode: Decoder,
                             hash: seq<Entry> -> string, response: Response) {
    && (request.Malformed? ==> response == Refused(ParseError))
    && (request.Request? && Target(request).None? ==> response == Refused(TargetingKeyMissing))
    && (request.Request? && Target(request).Some? ==>
          exists bulk :: MayList(configuration(Target(request).value), decode, bulk) && response == Tagged(bulk, ifNoneMatch, hash))
  }

  /**
   * What an Ok response lists: exactly the features of the targeted vector's document, none when there is no document,
   * under a tag the client did not send.
   */
  lemma ResponseMeans(request: Request, ifNoneMatch: string, configuration: string -> Load, decode: Decoder,
                      hash: seq<Entry> -> string, response: Response)
    requires MayRespond(request, ifNoneMatch, configuration, decode, hash, response) && response.Ok?
    ensures request.Request? && TARGETING_KEY in request.context && request.context[TARGETING_KEY].Str?
    ensures response.etag == hash(response.entries) && response.etag != ifNoneMatch
    ensures
      var load := configuration(request.context[TARGETING_KEY].s);
      && load != LoadFailed
      && (load == NotFound ==> response.entries == [])
      && (load.Loaded? && load.document.Obj? ==>
            Lists(if FEATURES in load.document.fields && load.document.fields[FEATURES].Obj?
                  then load.document.fields[FEATURES].fields else map[], decode, response.entries))
  {
    hide Lists;
  }

  /** Which requests are refused, and whose configuration the others ask for: any string under the targeting key will do. */
  lemma RequestMeans(request: Request, key: string, configuration: string -> Load, decode: Decoder)
    ensures
      var single := EvaluateSingle(request, key, configuration, decode);
      && (single == BadRequest(ParseError) <==> request.Malformed?)
      && (single == BadRequest(TargetingKeyMissing) <==>
            request.Request? && !("targetingKey" in request.context && request.context["targetingKey"].Str?))
      && (request.Request? && "targetingKey" in request.context && request.context["targetingKey"].Str? ==>
            var vector := request.context["targetingKey"].s;
            single == LookUp(configuration(vector), vector, key, decode))
  {
    hide EqualFold, FlagValue, AllFeatures;
  }

  /** Both endpoints refuse the same requests for the same reason, and fail on the same configurations. */
  lemma RefusalsAgree(request: Request, key: string, ifNoneMatch: string, configuration: string -> Load, decode: Decoder,
                      hash: seq<Entry> -> string, response: Response)
    requires MayRespond(request, ifNoneMatch, configuration, decode, hash, response)
    ensures forall code :: EvaluateSingle(request, key, configuration, decode) == BadRequest(code) <==> response == Refused(code)
    ensures request.Request? && Target(request).Some? && !EqualFold(key, Target(request).value) ==>
              (EvaluateSingle(request, key, configuration, decode) == ServerError <==> response == InternalError)
  {
    hide FlagValue, EqualFold, AllFeatures, MayList;
    if request.Request? && Target(request).Some? {
      var vector := Target(request).value;
      var bulk :| MayList(configuration(vector), decode, bulk) && response == Tagged(bulk, ifNoneMatch, hash);
      if !EqualFold(key, vector) {
        BulkAndSingleAgree(configuration(vector), vector, key, decode, bulk);
      }
    }
  }

  /**
   * Revalidation: a client that presents the tag of an earlier answer is told 304 when the features have not changed,
   * whatever else in the configuration has; and when the hash does not collide, only then.
   */
  lemma Revalidation(before: Load, now: Load, decode: Decoder, hash: seq<Entry> -> string, b1: Bulk, b2: Bulk)
    requires before.Loaded? && now.Loaded? && AllFeatures(before.document).Some? && AllFeatures(now.document).Some?
    requires MayList(before, decode, b1) && MayList(now, decode, b2)
    ensures AllFeatures(before.document) == AllFeatures(now.document) ==> Tagged(b2, hash(b1.entries), hash) == NotModified
    ensures (hash(b1.entries) == hash(b2.entries) ==> b1.entries == b2.entries) ==>
              (Tagged(b2, hash(b1.entries), hash) == NotModified <==> b1.entries == b2.entries)
  {
    hide Lists;
    if AllFeatures(before.document) == AllFeatures(now.document) {
      ListsOnce(AllFeatures(now.document).value, decode, b1.entries, b2.entries);
    }
  }
}
