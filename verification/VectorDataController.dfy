/** The VectorData controller, call by call against the objects it updates; each method performs its step function. */
module VectorDataController {
  import opened Strings
  import opened Conditions
  import opened VectorDataFormat
  import opened VectorDataLifetime

  class VectorDataReconciler {
    var vectors: map<string, VectorData>
    var configMaps: map<string, ConfigMap>

    constructor (s: Cluster)
      ensures Snapshot() == s
    {
      vectors, configMaps := s.vectors, s.configMaps;
    }

    function Snapshot(): Cluster
      reads this
    {
      Cluster(vectors, configMaps)
    }

    /** setReady */
    method SetReadyCondition(vector: string, ready: Condition<ReadyReason>, o: Oracle) returns (ok: bool)
      requires vector in vectors
      modifies this`vectors
      ensures Snapshot() == SetReady(old(Snapshot()), vector, ready, o)
      ensures ok == !Fails(o, PatchReady)
    {
      if Takes(o, PatchReady) {
        vectors := vectors[vector := vectors[vector].(ready := Some(ready))];
      }
      ok := !Fails(o, PatchReady);
    }

    /** handleDeletion */
    method HandleDeletion(vector: string, o: Oracle) returns (outcome: Outcome)
      requires vector in vectors
      modifies this
      ensures (Snapshot(), outcome) == TearDown(old(Snapshot()), vector, o)
    {
      var finalizers := vectors[vector].finalizers;
      if ConfigMapCleanup !in finalizers {
        return Done;
      }
      if Takes(o, DeleteConfigMap) {
        configMaps := configMaps - {ConfigMapName(vector)};
      }
      if Fails(o, DeleteConfigMap) {
        return Error;
      }
      if Takes(o, RemoveFinalizer) {
        var left := finalizers - {ConfigMapCleanup};
        if vectors[vector].deleting && left == {} {
          vectors := vectors - {vector};
        } else {
          vectors := vectors[vector := vectors[vector].(finalizers := left)];
        }
      }
      outcome := if Fails(o, RemoveFinalizer) then Error else Done;
    }

    /** The part of Reconcile that looks the ConfigMap up, creates it if need be and reports. */
    method EnsureConfigMap(vector: string, data: Data, o: Oracle) returns (outcome: Outcome)
      requires vector in vectors
      modifies this
      ensures (Snapshot(), outcome) == Materialise(old(Snapshot()), vector, data, o)
    {
      if Fails(o, GetConfigMap) {
        var _ := SetReadyCondition(vector, NotReady(ConfigMapGetFailed), o);
        return Error;
      }
      if ConfigMapName(vector) in configMaps {
        var ok := SetReadyCondition(vector, READY, o);
        return if ok then Done else Error;
      }
      if Takes(o, CreateConfigMap) && ValidKeys(data) {
        configMaps := configMaps[ConfigMapName(vector) := ConfigMap(vectors[vector].uid, data, o.version)];
      }
      if Fails(o, CreateConfigMap) || !ValidKeys(data) {
        var _ := SetReadyCondition(vector, NotReady(ConfigMapCreateFailed), o);
        return Error;
      }
      var ok := SetReadyCondition(vector, READY, o);
      outcome := if ok then Done else Error;
    }

    /** Reconcile */
    method Reconcile(vector: string, o: Oracle) returns (outcome: Outcome)
      modifies this
      ensures (Snapshot(), outcome) == Reconciled(old(Snapshot()), vector, o)
    {
      hide Renders, RenderedAs, Rendering, TearDown, Materialise, ConfigMapName;
      if Fails(o, GetVectorData) {
        return Error;
      }
      if vector !in vectors {
        return Done;
      }
      var vd := vectors[vector];
      if vd.deleting {
        outcome := HandleDeletion(vector, o);
        return;
      }
      if ConfigMapCleanup !in vd.finalizers {
        if Takes(o, AddFinalizer) {
          vectors := vectors[vector := vd.(finalizers := vd.finalizers + {ConfigMapCleanup})];
        }
        if Fails(o, AddFinalizer) {
          return Error;
        }
      }
      var rendered := RenderData(vd.spec);
      RenderedOnce(vd.spec, rendered);
      if rendered.None? {
        var _ := SetReadyCondition(vector, NotReady(RenderFailed), o);
        return Error;
      }
      outcome := EnsureConfigMap(vector, rendered.value, o);
    }
  }

  /** What the render loop returns is the rendering. */
  lemma RenderedOnce(spec: Spec, rendered: Option<Data>)
    requires rendered.Some? <==> Renders(spec)
    requires rendered.Some? ==> RenderedAs(spec, rendered.value)
    ensures rendered == Rendering(spec)
  {
    hide Renders, RenderedAs;
    if rendered.Some? {
      RenderingUnique(spec, rendered.value, Rendering(spec).value);
    }
  }
}
