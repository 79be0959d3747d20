/**
 * From spec to answer: the VectorData controller, the vector-data service and everybody else running together over
 * one set of ConfigMaps.
 */
module VectorDataSystem {
  import opened Strings
  import opened Bags
  import opened Conditions
  import opened DeploymentResults
  import opened VectorDataFormat
  import opened VectorDataLoad
  import L = VectorDataLifetime
  import C = VectorDataCache

  datatype System = System(vectors: map<string, L.VectorData>, service: C.Service)

  function ClusterOf(s: System): L.Cluster {
    L.Cluster(s.vectors, s.service.configMaps)
  }

  /** A step of the controller or of its environment, or one of the service and its informer. */
  datatype Step = Orchestrate(move: L.Step) | Serve(turn: C.Step)

  ghost predicate Next(s: System, step: Step, s': System) {
    match step
    case Orchestrate(move) => L.Next(ClusterOf(s), move, ClusterOf(s')) && C.Changes(s.service, s'.service)
    case Serve(turn) => !turn.Change? && s'.vectors == s.vectors && C.Next(s.service, turn, s'.service)
  }

  ghost predicate Run(states: seq<System>, steps: seq<Step>) {
    && |states| == |steps| + 1
    && L.Initial(ClusterOf(states[0])) && C.Initial(states[0].service)
    && forall i :: 0 <= i < |steps| ==> Next(states[i], steps[i], states[i + 1])
  }

  /** Up to state `n`, every store of a configuration of `vector` happens while it is fresh. */
  ghost predicate StoredInTime(states: seq<System>, steps: seq<Step>, vector: string, n: nat)
    requires |states| == |steps| + 1 && n < |states|
  {
    forall i :: 0 <= i < n ==> Timely(states[i], steps[i], vector)
  }

  ghost predicate Timely(s: System, step: Step, vector: string) {
    step.Serve? ==> C.Timely(s.service, step.turn, vector)
  }

  /** ConfigMaps and Ready conditions are sound, and what is cached for `vector` is fresh. */
  ghost predicate Inv(s: System, vector: string) {
    L.Sound(ClusterOf(s)) && C.EntryFresh(s.service, vector)
  }

  /** The ConfigMaps stay sound in any case; the cache entry stays fresh exactly when the step is timely. */
  lemma StepKeepsInv(s: System, step: Step, s': System, vector: string)
    requires Inv(s, vector) && Next(s, step, s')
    ensures Inv(s', vector) <==> Timely(s, step, vector)
  {
    hide L.Sound, C.EntryFresh, L.Reconciled, L.EnvironmentMoves, C.Changes, C.Fresh;
    match step
    case Orchestrate(move) =>
      C.StepFresh(s.service, C.Change, s'.service, vector);
      if move.Reconcile? {
        L.ReconcileSound(ClusterOf(s), move.vector, move.oracle);
      } else {
        L.EnvironmentSound(ClusterOf(s), ClusterOf(s'));
      }
    case Serve(turn) =>
      C.StepFresh(s.service, turn, s'.service, vector);
      assert s'.service.configMaps == s.service.configMaps;
  }

  lemma {:induction false} InvHolds(states: seq<System>, steps: seq<Step>, vector: string, n: nat)
    requires Run(states, steps) && n < |states| && StoredInTime(states, steps, vector, n)
    ensures Inv(states[n], vector)
  {
    hide Next, Timely, L.Backed, L.Honest, C.Fresh, L.ConfigMapName;
    if n > 0 {
      InvHolds(states, steps, vector, n - 1);
      assert Next(states[n - 1], steps[n - 1], states[n]);
      StepKeepsInv(states[n - 1], steps[n - 1], states[n], vector);
    } else {
      InitiallySound(states[0], vector);
    }
  }

  /** Controller, service and informer together stay consistent about a vector if and only if its loads are stored in time. */
  lemma SystemAgrees(states: seq<System>, steps: seq<Step>, vector: string, n: nat)
    requires Run(states, steps) && n < |states|
    ensures (forall i :: 0 <= i <= n ==> Inv(states[i], vector)) <==> StoredInTime(states, steps, vector, n)
  {
    hide Next, Timely, Inv;
    if StoredInTime(states, steps, vector, n) {
      forall i | 0 <= i <= n ensures Inv(states[i], vector) {
        InvHolds(states, steps, vector, i);
      }
    }
    if forall i :: 0 <= i <= n ==> Inv(states[i], vector) {
      forall i | 0 <= i < n ensures Timely(states[i], steps[i], vector) {
        assert Inv(states[i], vector) && Inv(states[i + 1], vector) && Next(states[i], steps[i], states[i + 1]);
        StepKeepsInv(states[i], steps[i], states[i + 1], vector);
      }
    }
  }

  lemma InitiallySound(s: System, vector: string)
    requires L.Initial(ClusterOf(s)) && C.Initial(s.service)
    ensures Inv(s, vector)
  {
    hide L.ConfigMapName, L.Rendering;
  }

  lemma KeyHead(b: string)
    requires b != "" && forall i :: 0 <= i < |ResultsKey(b)| ==> L.IsKeyChar(ResultsKey(b)[i])
    ensures !IsSpace(b[0])
  {
    assert ResultsKey(b)[|RESULTS_PREFIX|] == b[0];
  }

  /** A key the API server admits never starts with white space. */
  lemma ValidKeysPrintable(spec: Spec, data: Data)
    requires RenderedAs(spec, data) && L.ValidKeys(data)
    ensures Printable(spec)
  {
    hide Basename, ResultsKey, Holds, RawOrNull, Renderable, IsSpace, L.IsKeyChar;
    forall c | c in spec.results && Basename(c) != "" ensures !IsSpace(Basename(c)[0]) {
      assert ResultsKey(Basename(c)) in data;
      KeyHead(Basename(c));
    }
  }

  /** `vd`'s payloads are JSON or absent; the Kubernetes API accepts nothing else in these fields. */
  predicate PayloadsAreJson(vd: L.VectorData) {
    IsJson(vd.spec.features) && IsJson(vd.spec.authored)
  }

  /** What a request may be answered, once no event for the vector is outstanding. */
  ghost predicate Truthful(s: System, vector: string, load: Load) {
    match load
    case Loaded(document) =>
      && vector in s.vectors && L.ConfigMapCleanup in s.vectors[vector].finalizers
      && PayloadsAreJson(s.vectors[vector]) && Carries(s.vectors[vector].spec, document)
    case NotFound => vector in s.vectors && s.vectors[vector].ready == Some(L.READY) ==> s.vectors[vector].deleting
    case LoadFailed => vector in s.vectors && !PayloadsAreJson(s.vectors[vector])
  }

  /**
   * From spec to answer: as long as a vector's loads are stored in time, and once no event for it is outstanding, a
   * request is answered with exactly the document of the VectorData that exists now under that name, never with a predecessor's; a vector
   * that reports Ready and is not being deleted is found.
   */
  lemma AnswersAreTruthful(states: seq<System>, steps: seq<Step>, i: nat, vector: string, load: Load)
    requires Run(states, steps) && i < |states| && StoredInTime(states, steps, vector, i)
    requires C.Answers(states[i].service, vector, load) && !C.Pending(states[i].service, vector)
    ensures Truthful(states[i], vector, load)
  {
    hide Next, Timely, MayLoad, Carries, RenderedAs, Printable, L.Rendering, L.ValidKeys, L.ConfigMapName, Renders;
    InvHolds(states, steps, vector, i);
    var s := states[i];
    assert MayLoad(C.Find(s.service, vector), load) by { hide C.Pending; }
    assert L.Backed(ClusterOf(s), vector) && L.Honest(ClusterOf(s), vector);
    LoadTruthful(s, vector, load);
  }

  lemma LoadTruthful(s: System, vector: string, load: Load)
    requires L.Backed(ClusterOf(s), vector) && L.Honest(ClusterOf(s), vector)
    requires MayLoad(C.Find(s.service, vector), load)
    ensures Truthful(s, vector, load)
  {
    hide Carries, RenderedAs, Printable, L.ValidKeys, L.ConfigMapName, Renders, MayParse, Combine, IsJson;
    if L.ConfigMapName(vector) in s.service.configMaps {
      var spec, data := s.vectors[vector].spec, s.service.configMaps[L.ConfigMapName(vector)].data;
      ValidKeysPrintable(spec, data);
      RenderLoadRoundTrip(spec, data, load);
    }
  }

  // ----- a load that is not stored in time -----

  const CALLS_SUCCEED := L.Oracle({}, {}, 1)

  /** A VectorData with this spec: new, materialised, and marked for deletion. */
  function New(spec: Spec): L.VectorData {
    L.VectorData(1, spec, false, {}, None)
  }

  function Materialised(spec: Spec, deleting: bool): L.VectorData {
    L.VectorData(1, spec, deleting, {L.ConfigMapCleanup}, Some(L.READY))
  }

  function ConfigMaps(vector: string, data: Data): map<string, L.ConfigMap> {
    map[L.ConfigMapName(vector) := L.ConfigMap(1, data, 1)]
  }

  lemma MaterialisesOnce(vector: string, spec: Spec)
    requires Renders(spec) && L.ValidKeys(L.Rendering(spec).value)
    ensures L.Reconciled(L.Cluster(map[vector := New(spec)], map[]), vector, CALLS_SUCCEED)
            == (L.Cluster(map[vector := Materialised(spec, false)], ConfigMaps(vector, L.Rendering(spec).value)), L.Done)
  {
    hide Renders, L.Rendering, L.ValidKeys, L.ConfigMapName;
    var s := L.WithCleanup(L.Cluster(map[vector := New(spec)], map[]), vector);
    assert {} + {L.ConfigMapCleanup} == {L.ConfigMapCleanup};
    assert s.vectors == map[vector := New(spec).(finalizers := {L.ConfigMapCleanup})];
    var data := L.Rendering(spec).value;
    var s' := L.Materialise(s, vector, data, CALLS_SUCCEED).0;
    assert s'.vectors == map[vector := Materialised(spec, false)];
    assert s'.configMaps == ConfigMaps(vector, data);
  }

  lemma TearsDownOnce(vector: string, spec: Spec, data: Data)
    ensures L.Reconciled(L.Cluster(map[vector := Materialised(spec, true)], ConfigMaps(vector, data)), vector, CALLS_SUCCEED)
            == (L.Cluster(map[], map[]), L.Done)
  {
    hide L.Rendering, L.ConfigMapName;
    var s := L.Cluster(map[vector := Materialised(spec, true)], ConfigMaps(vector, data));
    assert {L.ConfigMapCleanup} - {L.ConfigMapCleanup} == {};
    assert s.configMaps - {L.ConfigMapName(vector)} == map[] && s.vectors - {vector} == map[];
  }

  /**
   * The condition is needed, for every spec that can be materialised: a load reads its ConfigMap, the VectorData is
   * deleted and torn down, the event is delivered, and then the load is stored. Nothing is outstanding any more, and
   * requests are answered with the document of a VectorData that is gone.
   */
  lemma StaleAnswer(vector: string, spec: Spec) returns (states: seq<System>, steps: seq<Step>, load: Load)
    requires Renders(spec) && L.ValidKeys(L.Rendering(spec).value) && IsJson(spec.features) && IsJson(spec.authored)
    ensures Run(states, steps) && |states| == 7 && !StoredInTime(states, steps, vector, 6)
    ensures var s := states[6];
            && s.service.queue == [] && vector !in s.vectors
            && C.Answers(s.service, vector, load) && load.Loaded? && Carries(spec, load.document)
            && !Truthful(s, vector, load)
  {
    hide Renders, RenderedAs, L.Rendering, L.ValidKeys, L.ConfigMapName, L.Reconciled, MayLoad, Carries, Printable, Next, Timely;
    var data := L.Rendering(spec).value;
    load := SomeLoad(data);
    ValidKeysPrintable(spec, data);
    RenderLoadRoundTrip(spec, data, load);
    MaterialisesOnce(vector, spec);
    TearsDownOnce(vector, spec, data);
    states, steps := StaleRun(vector, spec, data, load);
    if StoredInTime(states, steps, vector, 6) {
      AnswersAreTruthful(states, steps, 6, vector, load);
    }
  }

  /** The service while `flying` is in flight. */
  function Busy(configMaps: map<string, L.ConfigMap>, queue: seq<C.Event>, flying: map<string, Load>): C.Service {
    C.Service(configMaps, queue, map[], flying)
  }

  lemma LoadedBeforeDeletion(vector: string, spec: Spec, data: Data, load: Load)
    requires load.Loaded? && MayLoad(Some(data), load)
    ensures
      var cms := ConfigMaps(vector, data);
      var s1 := System(map[vector := Materialised(spec, false)], Busy(cms, [], map[]));
      var s2 := System(map[vector := Materialised(spec, false)], Busy(cms, [], map[vector := load]));
      var s3 := System(map[vector := Materialised(spec, true)], Busy(cms, [], map[vector := load]));
      Next(s1, Serve(C.Fetch(vector, load)), s2) && Next(s2, Orchestrate(L.Environment), s3)
  {
    hide L.ConfigMapName, MayLoad;
  }

  lemma StoredAfterEvent(vector: string, load: Load)
    requires load.Loaded?
    ensures
      var s4 := System(map[], Busy(map[], [C.Deleted(L.ConfigMapName(vector))], map[vector := load]));
      var s5 := System(map[], Busy(map[], [], map[vector := load]));
      var s6 := System(map[], C.Service(map[], [], map[vector := load.document], map[]));
      Next(s4, Serve(C.Deliver(0)), s5) && Next(s5, Serve(C.Store(vector)), s6)
  {
    hide L.ConfigMapName;
    var queue := [C.Deleted(L.ConfigMapName(vector))];
    assert Without(queue, 0) == [] && C.Invalidated(map[], queue[0]) == map[];
    assert map[vector := load] - {vector} == map[];
  }

  lemma StaleRun(vector: string, spec: Spec, data: Data, load: Load) returns (states: seq<System>, steps: seq<Step>)
    requires load.Loaded? && MayLoad(Some(data), load)
    requires L.Reconciled(L.Cluster(map[vector := New(spec)], map[]), vector, CALLS_SUCCEED).0
             == L.Cluster(map[vector := Materialised(spec, false)], ConfigMaps(vector, data))
    requires L.Reconciled(L.Cluster(map[vector := Materialised(spec, true)], ConfigMaps(vector, data)), vector, CALLS_SUCCEED).0
             == L.Cluster(map[], map[])
    ensures Run(states, steps) && |states| == 7
    ensures states[6] == System(map[], C.Service(map[], [], map[vector := load.document], map[]))
  {
    hide L.ConfigMapName, L.Reconciled, MayLoad, C.Next, L.EnvironmentMoves;
    var name, cms, flying := L.ConfigMapName(vector), ConfigMaps(vector, data), map[vector := load];
    var s0 := System(map[vector := New(spec)], Busy(map[], [], map[]));
    var s1 := System(map[vector := Materialised(spec, false)], Busy(cms, [], map[]));
    var s2 := System(map[vector := Materialised(spec, false)], Busy(cms, [], flying));
    var s3 := System(map[vector := Materialised(spec, true)], Busy(cms, [], flying));
    var s4 := System(map[], Busy(map[], [C.Deleted(name)], flying));
    var s5 := System(map[], Busy(map[], [], flying));
    var s6 := System(map[], C.Service(map[], [], map[vector := load.document], map[]));
    var turn := L.Reconcile(vector, CALLS_SUCCEED);
    states := [s0, s1, s2, s3, s4, s5, s6];
    steps := [Orchestrate(turn), Serve(C.Fetch(vector, load)), Orchestrate(L.Environment), Orchestrate(turn),
              Serve(C.Deliver(0)), Serve(C.Store(vector))];
    assert Next(s0, steps[0], s1);
    LoadedBeforeDeletion(vector, spec, data, load);
    assert C.Tells(s4.service.queue[0], name) && C.Changes(s3.service, s4.service);
    assert Next(s3, steps[3], s4);
    StoredAfterEvent(vector, load);
  }
}
