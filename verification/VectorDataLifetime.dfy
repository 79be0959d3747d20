/**
 * Materialising a VectorData as a ConfigMap and tearing it down (vectordata_controller.go): one Reconcile as a step
 * function, and what holds in every state the controller can reach. As in the stage-route protocol, a rejected call
 * has no effect and a lost call takes effect and reports an error.
 */
module VectorDataLifetime {
  import opened Strings
  import opened Conditions
  import opened VectorDataFormat

  /** konfidence.cloud/vector-data-configmap-cleanup, and everybody else's finalizers. */
  datatype Finalizer = ConfigMapCleanup | Foreign(name: string)

  datatype ReadyReason = Materialized | RenderFailed | ConfigMapGetFailed | ConfigMapCreateFailed

  /** `ready` is the Ready condition; None before the first one is set. */
  datatype VectorData = VectorData(
    uid: int,
    spec: Spec,
    deleting: bool,
    finalizers: set<Finalizer>,
    ready: Option<Condition<ReadyReason>>)

  /** `owner` is the vector-data-uid label. */
  datatype ConfigMap = ConfigMap(owner: int, data: Data, version: int)

  datatype Cluster = Cluster(vectors: map<string, VectorData>, configMaps: map<string, ConfigMap>)

  datatype Call =
    | GetVectorData | AddFinalizer | GetConfigMap | CreateConfigMap | DeleteConfigMap | RemoveFinalizer | PatchReady

  /** `version` is the resource version the API server hands to a ConfigMap created in this Reconcile. */
  datatype Oracle = Oracle(rejected: set<Call>, lost: set<Call>, version: int)

  predicate Fails(o: Oracle, call: Call) {
    call in o.rejected || call in o.lost
  }

  predicate Takes(o: Oracle, call: Call) {
    call !in o.rejected
  }

  datatype Outcome = Done | Error

  // ----- names -----

  function ConfigMapName(vector: string): string {
    CONFIG_MAP_PREFIX + vector
  }

  /** The prefix comes off again, so two vectors never share a ConfigMap. */
  lemma PrefixUndone(vector: string)
    ensures TrimPrefix(ConfigMapName(vector), CONFIG_MAP_PREFIX) == vector
  {
  }

  lemma ConfigMapNameInjective(a: string, b: string)
    requires ConfigMapName(a) == ConfigMapName(b)
    ensures a == b
  {
    PrefixUndone(a);
    PrefixUndone(b);
  }

  /** A character the API server admits in a ConfigMap key. */
  predicate IsKeyChar(c: char) {
    'a' <= c <= 'z' || 'A' <= c <= 'Z' || '0' <= c <= '9' || c == '-' || c == '_' || c == '.'
  }

  /** The API server's validation of ConfigMap keys; other reasons to refuse a ConfigMap are rejected calls. */
  predicate ValidKeys(data: Data) {
    forall k :: k in data ==> forall i :: 0 <= i < |k| ==> IsKeyChar(k[i])
  }

  // ----- one Reconcile -----

  /** What renderData returns; every iteration order gives the same map. */
  ghost function Rendering(spec: Spec): (rendered: Option<Data>)
    ensures rendered.Some? <==> Renders(spec)
    ensures rendered.Some? ==> RenderedAs(spec, rendered.value)
  {
    if Renders(spec) then
      SomeRendering(spec);
      var data :| RenderedAs(spec, data);
      Some(data)
    else None
  }

  /** setReady */
  function SetReady(s: Cluster, vector: string, ready: Condition<ReadyReason>, o: Oracle): Cluster
    requires vector in s.vectors
  {
    if Takes(o, PatchReady) then s.(vectors := s.vectors[vector := s.vectors[vector].(ready := Some(ready))]) else s
  }

  function NotReady(reason: ReadyReason): Condition<ReadyReason> {
    Condition(False, reason)
  }

  const READY := Condition(True, Materialized)

  function WithCleanup(s: Cluster, vector: string): Cluster
    requires vector in s.vectors
  {
    var vd := s.vectors[vector];
    s.(vectors := s.vectors[vector := vd.(finalizers := vd.finalizers + {ConfigMapCleanup})])
  }

  /** A patch that removes the last finalizer of a deleted object removes the object. */
  function WithoutCleanup(s: Cluster, vector: string): Cluster
    requires vector in s.vectors
  {
    var left := s.vectors[vector].finalizers - {ConfigMapCleanup};
    if s.vectors[vector].deleting && left == {} then s.(vectors := s.vectors - {vector})
    else s.(vectors := s.vectors[vector := s.vectors[vector].(finalizers := left)])
  }

  function Created(s: Cluster, vector: string, data: Data, o: Oracle): Cluster
    requires vector in s.vectors
  {
    if Takes(o, CreateConfigMap) && ValidKeys(data) then
      s.(configMaps := s.configMaps[ConfigMapName(vector) := ConfigMap(s.vectors[vector].uid, data, o.version)])
    else s
  }

  /** The tail of Reconcile, once the finalizer is in place and the spec has rendered. */
  function Materialise(s: Cluster, vector: string, data: Data, o: Oracle): (Cluster, Outcome)
    requires vector in s.vectors
  {
    if Fails(o, GetConfigMap) then (SetReady(s, vector, NotReady(ConfigMapGetFailed), o), Error)
    else if ConfigMapName(vector) in s.configMaps then
      (SetReady(s, vector, READY, o), if Fails(o, PatchReady) then Error else Done)
    else
      var created := Created(s, vector, data, o);
      if Fails(o, CreateConfigMap) || !ValidKeys(data)
      then (SetReady(created, vector, NotReady(ConfigMapCreateFailed), o), Error)
      else (SetReady(created, vector, READY, o), if Fails(o, PatchReady) then Error else Done)
  }

  /** handleDeletion */
  function TearDown(s: Cluster, vector: string, o: Oracle): (Cluster, Outcome)
    requires vector in s.vectors
  {
    if ConfigMapCleanup !in s.vectors[vector].finalizers then (s, Done)
    else
      var s1 := if Takes(o, DeleteConfigMap) then s.(configMaps := s.configMaps - {ConfigMapName(vector)}) else s;
      if Fails(o, DeleteConfigMap) then (s1, Error)
      else (if Takes(o, RemoveFinalizer) then WithoutCleanup(s1, vector) else s1,
            if Fails(o, RemoveFinalizer) then Error else Done)
  }

  /** Reconcile */
  ghost function Reconciled(s: Cluster, vector: string, o: Oracle): (Cluster, Outcome) {
    if Fails(o, GetVectorData) then (s, Error)
    else if vector !in s.vectors then (s, Done)
    else if s.vectors[vector].deleting then TearDown(s, vector, o)
    else
      var missing := ConfigMapCleanup !in s.vectors[vector].finalizers;
      var s1 := if missing && Takes(o, AddFinalizer) then WithCleanup(s, vector) else s;
      if missing && Fails(o, AddFinalizer) then (s1, Error)
      else match Rendering(s.vectors[vector].spec)
        case None => (SetReady(s1, vector, NotReady(RenderFailed), o), Error)
        case Some(data) => Materialise(s1, vector, data, o)
  }

  // ----- runs -----

  datatype Step = Reconcile(vector: string, oracle: Oracle) | Environment

  /**
   * Everybody else. Users and other controllers may do anything, except: specs are immutable, vector-data ConfigMaps,
   * the cleanup finalizer and the Ready condition belong to this controller, and an object with a finalizer is not
   * removed. A re-created VectorData starts without both.
   */
  ghost predicate EnvironmentMoves(s: Cluster, s': Cluster) {
    && (forall v :: ConfigMapName(v) in s.configMaps <==> ConfigMapName(v) in s'.configMaps)
    && (forall v :: ConfigMapName(v) in s.configMaps ==> s'.configMaps[ConfigMapName(v)] == s.configMaps[ConfigMapName(v)])
    && (forall v :: v in s.vectors && ConfigMapCleanup in s.vectors[v].finalizers ==>
          v in s'.vectors && Kept(s.vectors[v], s'.vectors[v]))
    && (forall v :: v in s'.vectors ==>
          || (v in s.vectors && Kept(s.vectors[v], s'.vectors[v]))
          || (ConfigMapCleanup !in s'.vectors[v].finalizers && s'.vectors[v].ready.None?))
  }

  /** The same object, perhaps marked for deletion and with other foreign finalizers. */
  ghost predicate Kept(vd: VectorData, vd': VectorData) {
    && vd'.uid == vd.uid && vd'.spec == vd.spec && vd'.ready == vd.ready
    && (vd.deleting ==> vd'.deleting)
    && (ConfigMapCleanup in vd.finalizers <==> ConfigMapCleanup in vd'.finalizers)
  }

  ghost predicate Next(s: Cluster, step: Step, s': Cluster) {
    match step
    case Reconcile(vector, o) => s' == Reconciled(s, vector, o).0
    case Environment => EnvironmentMoves(s, s')
  }

  ghost predicate Initial(s: Cluster) {
    && (forall v :: ConfigMapName(v) !in s.configMaps)
    && (forall v :: v in s.vectors ==> s.vectors[v].ready.None?)
  }

  ghost predicate Run(states: seq<Cluster>, steps: seq<Step>) {
    && |states| == |steps| + 1
    && Initial(states[0])
    && forall i :: 0 <= i < |steps| ==> Next(states[i], steps[i], states[i + 1])
  }

  // ----- the invariant -----

  /** The ConfigMap of `v` exists only while `v` holds it by the finalizer, and it is that very object's rendering. */
  ghost predicate Backed(s: Cluster, v: string) {
    ConfigMapName(v) in s.configMaps ==>
      && v in s.vectors && ConfigMapCleanup in s.vectors[v].finalizers
      && s.configMaps[ConfigMapName(v)].owner == s.vectors[v].uid
      && Rendering(s.vectors[v].spec) == Some(s.configMaps[ConfigMapName(v)].data)
      && ValidKeys(s.configMaps[ConfigMapName(v)].data)
  }

  /** The Ready condition tells the truth for as long as the object is not being deleted. */
  ghost predicate Honest(s: Cluster, v: string) {
    v in s.vectors && s.vectors[v].ready.Some? ==>
      var ready := s.vectors[v].ready.value;
      && (ready.status == True <==> ready.reason == Materialized)
      && (ready.status == True && !s.vectors[v].deleting ==> ConfigMapName(v) in s.configMaps)
      && (ready.reason == RenderFailed ==> !Renders(s.vectors[v].spec))
  }

  ghost predicate Sound(s: Cluster) {
    forall v :: Backed(s, v) && Honest(s, v)
  }

  /** Step functions touch one vector and its ConfigMap. */
  ghost predicate Elsewhere(s: Cluster, s': Cluster, vector: string) {
    && (forall v :: v != vector ==> (v in s'.vectors <==> v in s.vectors))
    && (forall v :: v != vector && v in s.vectors ==> s'.vectors[v] == s.vectors[v])
    && (forall k :: k != ConfigMapName(vector) ==> (k in s'.configMaps <==> k in s.configMaps))
    && (forall k :: k != ConfigMapName(vector) && k in s.configMaps ==> s'.configMaps[k] == s.configMaps[k])
  }

  lemma SoundElsewhere(s: Cluster, s': Cluster, vector: string)
    requires Sound(s) && Elsewhere(s, s', vector) && Backed(s', vector) && Honest(s', vector)
    ensures Sound(s')
  {
    hide ConfigMapName, Rendering, Renders, ValidKeys;
    forall v ensures Backed(s', v) && Honest(s', v) {
      assert Backed(s, v) && Honest(s, v);
      if v != vector && ConfigMapName(v) == ConfigMapName(vector) {
        ConfigMapNameInjective(v, vector);
      }
    }
  }

  lemma SetReadySound(s: Cluster, vector: string, ready: Condition<ReadyReason>, o: Oracle)
    requires vector in s.vectors && Backed(s, vector) && Honest(s, vector)
    requires Honest(s.(vectors := s.vectors[vector := s.vectors[vector].(ready := Some(ready))]), vector)
    ensures var s' := SetReady(s, vector, ready, o);
            Elsewhere(s, s', vector) && Backed(s', vector) && Honest(s', vector)
  {
    hide ConfigMapName, Rendering, Renders, ValidKeys;
  }

  lemma CreatedSound(s: Cluster, vector: string, data: Data, o: Oracle)
    requires vector in s.vectors && ConfigMapCleanup in s.vectors[vector].finalizers
    requires Rendering(s.vectors[vector].spec) == Some(data)
    requires Backed(s, vector) && Honest(s, vector) && ConfigMapName(vector) !in s.configMaps
    ensures var s' := Created(s, vector, data, o);
            Elsewhere(s, s', vector) && Backed(s', vector) && Honest(s', vector)
  {
    hide ConfigMapName, Rendering, Renders, ValidKeys;
  }

  lemma MaterialiseSound(s: Cluster, vector: string, data: Data, o: Oracle)
    requires vector in s.vectors && !s.vectors[vector].deleting && ConfigMapCleanup in s.vectors[vector].finalizers
    requires Rendering(s.vectors[vector].spec) == Some(data)
    requires Backed(s, vector) && Honest(s, vector)
    ensures var s' := Materialise(s, vector, data, o).0;
            Elsewhere(s, s', vector) && Backed(s', vector) && Honest(s', vector)
  {
    hide ConfigMapName, Rendering, Renders, ValidKeys, SetReady, Backed;
    if Fails(o, GetConfigMap) {
      SetReadySound(s, vector, NotReady(ConfigMapGetFailed), o);
    } else if ConfigMapName(vector) in s.configMaps {
      SetReadySound(s, vector, READY, o);
    } else {
      CreatedSound(s, vector, data, o);
      var created := Created(s, vector, data, o);
      SetReadySound(created, vector,
                    if Fails(o, CreateConfigMap) || !ValidKeys(data) then NotReady(ConfigMapCreateFailed) else READY, o);
    }
  }

  lemma TearDownSound(s: Cluster, vector: string, o: Oracle)
    requires vector in s.vectors && s.vectors[vector].deleting
    requires Backed(s, vector) && Honest(s, vector)
    ensures var s' := TearDown(s, vector, o).0;
            Elsewhere(s, s', vector) && Backed(s', vector) && Honest(s', vector)
  {
    hide ConfigMapName, Rendering, Renders, ValidKeys;
  }

  lemma ReconcileSound(s: Cluster, vector: string, o: Oracle)
    requires Sound(s)
    ensures Sound(Reconciled(s, vector, o).0)
  {
    hide ConfigMapName, Rendering, Renders, ValidKeys, Materialise, TearDown, SetReady;
    assert Backed(s, vector) && Honest(s, vector);
    if !Fails(o, GetVectorData) && vector in s.vectors {
      var s' := Reconciled(s, vector, o).0;
      if s.vectors[vector].deleting {
        TearDownSound(s, vector, o);
      } else {
        var missing := ConfigMapCleanup !in s.vectors[vector].finalizers;
        var s1 := if missing && Takes(o, AddFinalizer) then WithCleanup(s, vector) else s;
        assert Backed(s1, vector) && Honest(s1, vector) && Elsewhere(s, s1, vector);
        if !(missing && Fails(o, AddFinalizer)) {
          if Rendering(s.vectors[vector].spec).Some? {
            MaterialiseSound(s1, vector, Rendering(s.vectors[vector].spec).value, o);
          } else {
            SetReadySound(s1, vector, NotReady(RenderFailed), o);
          }
        }
      }
      SoundElsewhere(s, s', vector);
    }
  }

  lemma EnvironmentSound(s: Cluster, s': Cluster)
    requires Sound(s) && EnvironmentMoves(s, s')
    ensures Sound(s')
  {
    hide ConfigMapName, Rendering, Renders, ValidKeys;
    forall v ensures Backed(s', v) && Honest(s', v) {
      assert Backed(s, v) && Honest(s, v);
    }
  }

  /**
   * ConfigMap lifetime: in every reachable state a vector-data ConfigMap belongs to an existing VectorData that
   * carries the finalizer, is labelled with that object's uid and holds the rendering of its spec; Ready=True vouches
   * for exactly that ConfigMap.
   */
  lemma {:induction false} ConfigMapLifetime(states: seq<Cluster>, steps: seq<Step>)
    requires Run(states, steps)
    ensures forall i :: 0 <= i < |states| ==> Sound(states[i])
  {
    hide Sound, Initial, Next;
    forall i | 0 <= i < |states| ensures Sound(states[i]) {
      SoundAt(states, steps, i);
    }
  }

  lemma {:induction false} SoundAt(states: seq<Cluster>, steps: seq<Step>, i: nat)
    requires Run(states, steps) && i < |states|
    ensures Sound(states[i])
  {
    hide ConfigMapName, Rendering, Renders, ValidKeys, Reconciled, EnvironmentMoves;
    if i > 0 {
      SoundAt(states, steps, i - 1);
      assert Next(states[i - 1], steps[i - 1], states[i]);
      match steps[i - 1]
      case Reconcile(vector, o) => ReconcileSound(states[i - 1], vector, o);
      case Environment => EnvironmentSound(states[i - 1], states[i]);
    }
  }

  // ----- progress -----

  /** No call fails. */
  predicate Smooth(o: Oracle) {
    o.rejected == {} && o.lost == {}
  }

  /** One undisturbed Reconcile materialises a spec that renders to admissible keys, from any reachable state. */
  lemma Materialises(s: Cluster, vector: string, o: Oracle)
    requires Sound(s) && Smooth(o)
    requires vector in s.vectors && !s.vectors[vector].deleting
    requires Renders(s.vectors[vector].spec) && ValidKeys(Rendering(s.vectors[vector].spec).value)
    ensures Reconciled(s, vector, o).1 == Done
    ensures var s' := Reconciled(s, vector, o).0;
            && vector in s'.vectors && s'.vectors[vector].ready == Some(READY)
            && ConfigMapName(vector) in s'.configMaps
            && RenderedAs(s.vectors[vector].spec, s'.configMaps[ConfigMapName(vector)].data)
  {
    hide ConfigMapName, Renders, ValidKeys, RenderedAs, Rendering;
    assert Backed(s, vector);
    ReconcileSound(s, vector, o);
    assert Backed(Reconciled(s, vector, o).0, vector);
  }

  /**
   * One undisturbed Reconcile of a deleted VectorData that holds the finalizer removes exactly its ConfigMap and that
   * finalizer; the object stays while other finalizers are left.
   */
  lemma TearsDown(s: Cluster, vector: string, o: Oracle)
    requires Smooth(o) && vector in s.vectors && s.vectors[vector].deleting
    requires ConfigMapCleanup in s.vectors[vector].finalizers
    ensures
      var (s', outcome) := Reconciled(s, vector, o);
      && outcome == Done && s'.configMaps == s.configMaps - {ConfigMapName(vector)}
      && (vector in s'.vectors <==> s.vectors[vector].finalizers != {ConfigMapCleanup})
      && (vector in s'.vectors ==>
            s'.vectors == s.vectors[vector := s.vectors[vector].(finalizers := s.vectors[vector].finalizers - {ConfigMapCleanup})])
      && (vector !in s'.vectors ==> s'.vectors == s.vectors - {vector})
  {
    hide ConfigMapName, Renders, ValidKeys, RenderedAs, Rendering;
    assert s.vectors[vector].finalizers == {ConfigMapCleanup} <==> s.vectors[vector].finalizers - {ConfigMapCleanup} == {};
  }

  /** Without the finalizer there is nothing to do, and from a reachable state nothing is left behind. */
  lemma NothingToTearDown(s: Cluster, vector: string, o: Oracle)
    requires Sound(s) && !Fails(o, GetVectorData) && vector in s.vectors && s.vectors[vector].deleting
    requires ConfigMapCleanup !in s.vectors[vector].finalizers
    ensures Reconciled(s, vector, o) == (s, Done) && ConfigMapName(vector) !in s.configMaps
  {
    hide ConfigMapName, Renders, ValidKeys, RenderedAs, Rendering;
    assert Backed(s, vector);
  }

  /** A VectorData that has not been given the finalizer finds no ConfigMap, so it never inherits a predecessor's. */
  lemma NothingInherited(states: seq<Cluster>, steps: seq<Step>, i: nat, v: string)
    requires Run(states, steps) && i < |states|
    requires v in states[i].vectors && ConfigMapCleanup !in states[i].vectors[v].finalizers
    ensures ConfigMapName(v) !in states[i].configMaps
  {
    hide ConfigMapName, Renders, ValidKeys, Rendering, Run;
    SoundAt(states, steps, i);
    assert Backed(states[i], v);
  }

  // ----- what it reports -----

  /** The object reaches the ConfigMap part of its Reconcile with its finalizer in place. */
  ghost predicate Proceeds(s: Cluster, vector: string, o: Oracle) {
    && !Fails(o, GetVectorData) && vector in s.vectors && !s.vectors[vector].deleting
    && (ConfigMapCleanup in s.vectors[vector].finalizers || !Fails(o, AddFinalizer))
  }

  /** A Reconcile that does not get there: a missing object needs nothing, a failing call is an error, and no ConfigMap is made. */
  lemma StopsEarly(s: Cluster, vector: string, o: Oracle)
    requires !Proceeds(s, vector, o) && (vector in s.vectors ==> !s.vectors[vector].deleting)
    ensures
      var (s', outcome) := Reconciled(s, vector, o);
      && (outcome == Done <==> !Fails(o, GetVectorData) && vector !in s.vectors) && (outcome == Done || outcome == Error)
      && s'.configMaps == s.configMaps && s'.vectors.Keys == s.vectors.Keys
      && (vector in s.vectors ==> s'.vectors[vector].ready == s.vectors[vector].ready)
  {
    hide Renders, Rendering, ValidKeys, ConfigMapName;
  }

  /** What the Ready condition will be, from what the Reconcile finds. */
  ghost predicate Reports(s: Cluster, vector: string, o: Oracle, ready: Condition<ReadyReason>)
    requires vector in s.vectors
  {
    var spec, there := s.vectors[vector].spec, ConfigMapName(vector) in s.configMaps;
    if !Renders(spec) then ready == Condition(False, RenderFailed)
    else if Fails(o, GetConfigMap) then ready == Condition(False, ConfigMapGetFailed)
    else if !there && (Fails(o, CreateConfigMap) || !ValidKeys(Rendering(spec).value)) then
      ready == Condition(False, ConfigMapCreateFailed)
    else ready == Condition(True, Materialized)
  }

  /** A Reconcile that proceeds binds the object and reports what became of its ConfigMap, unless the status patch is rejected. */
  lemma ReportsExactly(s: Cluster, vector: string, o: Oracle)
    requires Proceeds(s, vector, o)
    ensures
      var (s', outcome) := Reconciled(s, vector, o);
      && vector in s'.vectors && ConfigMapCleanup in s'.vectors[vector].finalizers
      && (Takes(o, PatchReady) ==> s'.vectors[vector].ready.Some? && Reports(s, vector, o, s'.vectors[vector].ready.value))
      && (!Takes(o, PatchReady) ==> s'.vectors[vector].ready == s.vectors[vector].ready)
      && (outcome == Done <==> Reports(s, vector, o, READY) && !Fails(o, PatchReady))
  {
    hide Renders, Rendering, ValidKeys, ConfigMapName;
  }
}
