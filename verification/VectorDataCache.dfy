/**
 * The vector-data service's cache of loaded configurations and the informer that invalidates it (in_memory_cache.go,
 * informer.go, getConfiguration of vector_data_service.go).
 *
 * The API server may change ConfigMaps in any way at any time. A change or a deletion queues one event; events are
 * delivered in any order. A load reads the ConfigMap in one step and stores its result in a later one.
 */
module VectorDataCache {
  import opened Strings
  import opened Bags
  import opened DeploymentResults
  import opened VectorDataFormat
  import opened VectorDataLoad
  import opened VectorDataLifetime

  /** A notification from the watch. Versions are resource versions; a resync repeats the same one. */
  datatype Event = Updated(name: string, before: int, after: int) | Deleted(name: string)

  /** What the handler does with an event: the cache entry it drops, if any. */
  function Dropped(event: Event): Option<string> {
    match event
    case Updated(name, before, after) => if before == after then None else Some(TrimPrefix(name, CONFIG_MAP_PREFIX))
    case Deleted(name) => Some(TrimPrefix(name, CONFIG_MAP_PREFIX))
  }

  // ----- the running service -----

  /** The store never holds an empty configuration: storing one removes the entry. */
  class InMemoryCache {
    var store: map<string, Json>

    constructor ()
      ensures store == map[]
    {
      store := map[];
    }

    method Get(key: string) returns (value: Option<Json>)
      ensures value.Some? <==> key in store
      ensures value.Some? ==> store[key] == value.value
    {
      value := if key in store then Some(store[key]) else None;
    }

    /** None is the empty string. */
    method Set(key: string, value: Option<Json>)
      modifies this
      ensures store == (if value.None? then old(store) - {key} else old(store)[key := value.value])
    {
      if value.None? {
        if key in store {
          store := store - {key};
        }
      } else {
        store := store[key := value.value];
      }
    }
  }

  /** The informer's UpdateFunc and DeleteFunc. */
  method HandleEvent(cache: InMemoryCache, event: Event)
    modifies cache
    ensures cache.store == Invalidated(old(cache.store), event)
    ensures event.Updated? && event.before == event.after ==> cache.store == old(cache.store)
    ensures event.Deleted? || event.before != event.after ==>
              cache.store == old(cache.store) - {TrimPrefix(event.name, CONFIG_MAP_PREFIX)}
  {
    match event
    case Updated(name, before, after) =>
      if before == after {
        return;
      }
      cache.Set(TrimPrefix(name, CONFIG_MAP_PREFIX), None);
    case Deleted(name) =>
      cache.Set(TrimPrefix(name, CONFIG_MAP_PREFIX), None);
  }

  /**
   * getConfiguration. `fetched` is what the API server answers on a cache miss: None when the request fails, Some(None)
   * when there is no such ConfigMap.
   */
  method GetConfiguration(cache: InMemoryCache, vector: string, fetched: Option<Option<Data>>) returns (load: Load)
    modifies cache
    ensures vector in old(cache.store) ==> load == Loaded(old(cache.store)[vector]) && cache.store == old(cache.store)
    ensures vector !in old(cache.store) ==>
              && (if fetched.None? then load == LoadFailed else MayLoad(fetched.value, load))
              && cache.store == Stored(old(cache.store), vector, load)
              && (load.Loaded? ==> cache.store == old(cache.store)[vector := load.document])
              && (!load.Loaded? ==> cache.store == old(cache.store))
  {
    hide MayLoad;
    var cached := cache.Get(vector);
    if cached.Some? {
      return Loaded(cached.value);
    }
    if fetched.None? {
      return LoadFailed;
    }
    load := LoadData(fetched.value);
    if load.Loaded? {
      cache.Set(vector, Some(load.document));
    }
  }

  function Invalidated(cache: map<string, Json>, event: Event): map<string, Json> {
    match Dropped(event)
    case None => cache
    case Some(key) => cache - {key}
  }

  function Stored(cache: map<string, Json>, vector: string, load: Load): map<string, Json> {
    if load.Loaded? then cache[vector := load.document] else cache
  }

  // ----- the system -----

  /** `inFlight` holds what a load of a vector has read and not yet stored. */
  datatype Service = Service(
    configMaps: map<string, ConfigMap>,
    queue: seq<Event>,
    cache: map<string, Json>,
    inFlight: map<string, Load>)

  datatype Step =
    | Change                            // the API server changes ConfigMaps and queues an event for each
    | Resync(name: string)              // the informer repeats a ConfigMap it already knows
    | Deliver(event: nat)
    | Fetch(vector: string, load: Load) // a load reads the ConfigMap
    | Store(vector: string)             // and stores what it made of it

  function Find(s: Service, vector: string): Option<Data> {
    if ConfigMapName(vector) in s.configMaps then Some(s.configMaps[ConfigMapName(vector)].data) else None
  }

  /** An event that tells of a change of `vector`'s ConfigMap is still to be delivered. */
  ghost predicate Pending(s: Service, vector: string) {
    exists i :: 0 <= i < |s.queue| && Tells(s.queue[i], ConfigMapName(vector))
  }

  predicate Tells(event: Event, name: string) {
    event.name == name && (event.Updated? ==> event.before != event.after)
  }

  /** The API server's side: a ConfigMap that changes gets a new version, and each change and deletion is announced. */
  ghost predicate Changes(s: Service, s': Service) {
    && s'.cache == s.cache && s'.inFlight == s.inFlight
    && s.queue <= s'.queue
    && (forall name :: name in s.configMaps && name in s'.configMaps && s'.configMaps[name].version == s.configMaps[name].version ==>
          s'.configMaps[name] == s.configMaps[name])
    && (forall name :: name in s.configMaps && Gone(s.configMaps[name], s', name) ==>
          exists i :: 0 <= i < |s'.queue| && Tells(s'.queue[i], name))
  }

  /** This version of the ConfigMap is no longer the current one. */
  predicate Gone(was: ConfigMap, s': Service, name: string) {
    name !in s'.configMaps || s'.configMaps[name].version != was.version
  }

  ghost predicate Next(s: Service, step: Step, s': Service) {
    match step
    case Change => Changes(s, s')
    case Resync(name) =>
      name in s.configMaps
      && s' == s.(queue := s.queue + [Updated(name, s.configMaps[name].version, s.configMaps[name].version)])
    case Deliver(e) =>
      e < |s.queue| && s' == s.(queue := Without(s.queue, e), cache := Invalidated(s.cache, s.queue[e]))
    case Fetch(vector, load) =>
      && vector !in s.inFlight && MayLoad(Find(s, vector), load)
      && s' == s.(inFlight := s.inFlight[vector := load])
    case Store(vector) =>
      && vector in s.inFlight
      && s' == s.(inFlight := s.inFlight - {vector}, cache := Stored(s.cache, vector, s.inFlight[vector]))
  }

  ghost predicate Initial(s: Service) {
    s.cache == map[] && s.inFlight == map[]
  }

  ghost predicate Run(states: seq<Service>, steps: seq<Step>) {
    && |states| == |steps| + 1
    && Initial(states[0])
    && forall i :: 0 <= i < |steps| ==> Next(states[i], steps[i], states[i + 1])
  }

  // ----- fresh entries -----

  /** The load is a possible load of its ConfigMap now, or news about that ConfigMap is on its way. */
  ghost predicate Fresh(s: Service, vector: string, load: Load) {
    MayLoad(Find(s, vector), load) || Pending(s, vector)
  }

  /** What the cache holds for `vector`, if anything, is fresh. */
  ghost predicate EntryFresh(s: Service, vector: string) {
    vector in s.cache ==> Fresh(s, vector, Loaded(s.cache[vector]))
  }

  /** If the step stores a configuration of `vector`, it does so while that is fresh. */
  ghost predicate Timely(s: Service, step: Step, vector: string) {
    step == Store(vector) && vector in s.inFlight && s.inFlight[vector].Loaded? ==> Fresh(s, vector, s.inFlight[vector])
  }

  lemma ChangeFresh(s: Service, s': Service, vector: string, load: Load)
    requires Changes(s, s') && Fresh(s, vector, load) && load.Loaded?
    ensures Fresh(s', vector, load)
  {
    hide MayParse, Combine, ConfigMapName;
    if Pending(s, vector) {
      var i :| 0 <= i < |s.queue| && Tells(s.queue[i], ConfigMapName(vector));
      assert s'.queue[i] == s.queue[i];
    }
  }

  /** An event for one vector is no news about another: the handler's TrimPrefix undoes the loader's prefix. */
  lemma DeliverFresh(s: Service, e: nat, vector: string, load: Load)
    requires e < |s.queue| && Fresh(s, vector, load)
    requires Dropped(s.queue[e]) != Some(vector)
    ensures Fresh(s.(queue := Without(s.queue, e), cache := Invalidated(s.cache, s.queue[e])), vector, load)
  {
    hide MayLoad, ConfigMapName;
    PrefixUndone(vector);
    if Pending(s, vector) {
      var i :| 0 <= i < |s.queue| && Tells(s.queue[i], ConfigMapName(vector));
      assert Without(s.queue, e)[if i < e then i else i - 1] == s.queue[i];
    }
  }

  lemma QueuedFresh(s: Service, event: Event, vector: string, load: Load)
    requires Fresh(s, vector, load)
    ensures Fresh(s.(queue := s.queue + [event]), vector, load)
  {
    hide MayLoad, ConfigMapName;
    if Pending(s, vector) {
      var i :| 0 <= i < |s.queue| && Tells(s.queue[i], ConfigMapName(vector));
      assert (s.queue + [event])[i] == s.queue[i];
    }
  }

  /** Whatever is not dropped stays fresh. */
  lemma StaysFresh(s: Service, step: Step, s': Service, vector: string, load: Load)
    requires Next(s, step, s') && load.Loaded? && Fresh(s, vector, load)
    requires step.Deliver? ==> Dropped(s.queue[step.event]) != Some(vector)
    ensures Fresh(s', vector, load)
  {
    hide MayLoad, ConfigMapName, Tells, Fresh, Dropped;
    match step
    case Change => ChangeFresh(s, s', vector, load);
    case Resync(name) => QueuedFresh(s, Updated(name, s.configMaps[name].version, s.configMaps[name].version), vector, load);
    case Deliver(e) => DeliverFresh(s, e, vector, load);
    case Fetch(_, _) => SameFresh(s, s', vector, load);
    case Store(_) => SameFresh(s, s', vector, load);
  }

  /** A step keeps the entry of a vector fresh if and only if it does not store an outdated one. */
  lemma StepFresh(s: Service, step: Step, s': Service, vector: string)
    requires EntryFresh(s, vector) && Next(s, step, s')
    ensures EntryFresh(s', vector) <==> Timely(s, step, vector)
  {
    hide MayLoad, ConfigMapName, Tells, Fresh, Dropped;
    if step == Store(vector) && s.inFlight[vector].Loaded? {
      if Fresh(s, vector, s.inFlight[vector]) {
        SameFresh(s, s', vector, s.inFlight[vector]);
      }
      if Fresh(s', vector, s.inFlight[vector]) {
        SameFresh(s', s, vector, s.inFlight[vector]);
      }
    } else if vector in s'.cache {
      StaysFresh(s, step, s', vector, Loaded(s.cache[vector]));
    }
  }

  lemma SameFresh(s: Service, s': Service, vector: string, load: Load)
    requires s'.configMaps == s.configMaps && s'.queue == s.queue && Fresh(s, vector, load)
    ensures Fresh(s', vector, load)
  {
    hide MayLoad;
  }

  lemma FetchedFresh(s: Service, vector: string, load: Load)
    requires MayLoad(Find(s, vector), load)
    ensures Fresh(s, vector, load)
  {
  }

  /** Up to state `n`, every store of a configuration of `vector` happens while it is fresh. */
  ghost predicate StoredInTime(states: seq<Service>, steps: seq<Step>, vector: string, n: nat)
    requires |states| == |steps| + 1 && n < |states|
  {
    forall i :: 0 <= i < n ==> Timely(states[i], steps[i], vector)
  }

  lemma {:induction false} FreshAt(states: seq<Service>, steps: seq<Step>, vector: string, n: nat)
    requires Run(states, steps) && n < |states| && StoredInTime(states, steps, vector, n)
    ensures EntryFresh(states[n], vector)
  {
    hide Next, Timely, Fresh;
    if n > 0 {
      FreshAt(states, steps, vector, n - 1);
      assert Next(states[n - 1], steps[n - 1], states[n]);
      StepFresh(states[n - 1], steps[n - 1], states[n], vector);
    }
  }

  /**
   * The cache agrees with the ConfigMaps, exactly: throughout a run what is cached for a vector is a possible result
   * of loading its ConfigMap now, or an event for it is still undelivered, if and only if no load of that vector is
   * stored after its last news has been delivered and while it is outdated.
   */
  lemma CacheAgrees(states: seq<Service>, steps: seq<Step>, vector: string, n: nat)
    requires Run(states, steps) && n < |states|
    ensures (forall i :: 0 <= i <= n ==> EntryFresh(states[i], vector)) <==> StoredInTime(states, steps, vector, n)
  {
    hide Next, Timely, EntryFresh;
    if StoredInTime(states, steps, vector, n) {
      forall i | 0 <= i <= n ensures EntryFresh(states[i], vector) {
        FreshAt(states, steps, vector, i);
      }
    }
    if forall i :: 0 <= i <= n ==> EntryFresh(states[i], vector) {
      forall i | 0 <= i < n ensures Timely(states[i], steps[i], vector) {
        assert EntryFresh(states[i], vector) && EntryFresh(states[i + 1], vector) && Next(states[i], steps[i], states[i + 1]);
        StepFresh(states[i], steps[i], states[i + 1], vector);
      }
    }
  }

  /** What a request may be answered: the cached configuration, or a load when there is none. */
  ghost predicate Answers(s: Service, vector: string, load: Load) {
    if vector in s.cache then load == Loaded(s.cache[vector]) else MayLoad(Find(s, vector), load)
  }

  /** Once the news has arrived, an answer from the cache is an answer a fresh load could give. */
  lemma AnswersRefineLoads(states: seq<Service>, steps: seq<Step>, i: nat, vector: string, load: Load)
    requires Run(states, steps) && i < |states| && StoredInTime(states, steps, vector, i)
    requires !Pending(states[i], vector) && Answers(states[i], vector, load)
    ensures MayLoad(Find(states[i], vector), load)
  {
    hide Next, Timely, MayLoad, Pending, Find;
    FreshAt(states, steps, vector, i);
  }

  // ----- runs that store in time -----

  /** Every configuration in flight is fresh. */
  ghost predicate FlightFresh(s: Service) {
    forall v :: v in s.inFlight && s.inFlight[v].Loaded? ==> Fresh(s, v, s.inFlight[v])
  }

  /** The delivery of an event does no harm to a configuration in flight: it is still current, or more news is coming. */
  ghost predicate Harmless(s: Service, step: Step, s': Service) {
    step.Deliver? && step.event < |s.queue| && Dropped(s.queue[step.event]).Some? ==>
      var v := Dropped(s.queue[step.event]).value;
      v in s.inFlight && s.inFlight[v].Loaded? ==> Fresh(s', v, s.inFlight[v])
  }

  /** No delivery of the run harms a configuration in flight. */
  ghost predicate Calm(states: seq<Service>, steps: seq<Step>)
    requires |states| == |steps| + 1
  {
    forall i :: 0 <= i < |steps| ==> Harmless(states[i], steps[i], states[i + 1])
  }

  lemma StepFlightFresh(s: Service, step: Step, s': Service)
    requires FlightFresh(s) && Next(s, step, s') && Harmless(s, step, s')
    ensures FlightFresh(s')
  {
    hide MayLoad, Fresh, Dropped, Changes;
    forall v | v in s'.inFlight && s'.inFlight[v].Loaded? ensures Fresh(s', v, s'.inFlight[v]) {
      if step.Fetch? && v == step.vector {
        FetchedFresh(s', v, step.load);
      } else if !(step.Deliver? && Dropped(s.queue[step.event]) == Some(v)) {
        FlightKept(s, step, s', v);
        StaysFresh(s, step, s', v, s.inFlight[v]);
      }
    }
  }

  lemma FlightKept(s: Service, step: Step, s': Service, vector: string)
    requires Next(s, step, s') && vector in s'.inFlight && !(step.Fetch? && step.vector == vector)
    ensures vector in s.inFlight && s'.inFlight[vector] == s.inFlight[vector]
  {
    hide MayLoad, Tells, Gone;
  }

  lemma {:induction false} FlightFreshAt(states: seq<Service>, steps: seq<Step>, i: nat)
    requires Run(states, steps) && Calm(states, steps) && i < |states|
    ensures FlightFresh(states[i])
  {
    hide Next, Harmless, Fresh;
    if i > 0 {
      FlightFreshAt(states, steps, i - 1);
      assert Next(states[i - 1], steps[i - 1], states[i]);
      StepFlightFresh(states[i - 1], steps[i - 1], states[i]);
    }
  }

  /** In a calm run every load is stored in time, so the whole cache agrees throughout. */
  lemma CalmAgrees(states: seq<Service>, steps: seq<Step>, vector: string, n: nat)
    requires Run(states, steps) && Calm(states, steps) && n < |states|
    ensures StoredInTime(states, steps, vector, n) && EntryFresh(states[n], vector)
  {
    hide Next, Harmless, Fresh;
    forall i | 0 <= i < n ensures Timely(states[i], steps[i], vector) {
      FlightFreshAt(states, steps, i);
    }
    FreshAt(states, steps, vector, n);
  }

  /** News of a change that the load has already seen does no harm. */
  lemma OldNewsHarmless(s: Service, step: Step, s': Service)
    requires Next(s, step, s') && step.Deliver?
    requires forall v :: Dropped(s.queue[step.event]) == Some(v) && v in s.inFlight ==> MayLoad(Find(s, v), s.inFlight[v])
    ensures Harmless(s, step, s')
  {
    hide MayLoad;
  }

  /** No event for a vector is delivered between that vector's fetch and its store. */
  ghost predicate Undisturbed(states: seq<Service>, steps: seq<Step>)
    requires |states| == |steps| + 1
  {
    forall i :: 0 <= i < |steps| ==> Clear(states[i], steps[i])
  }

  predicate Clear(s: Service, step: Step) {
    step.Deliver? && step.event < |s.queue| && Dropped(s.queue[step.event]).Some? ==>
      Dropped(s.queue[step.event]).value !in s.inFlight
  }

  lemma UndisturbedIsCalm(states: seq<Service>, steps: seq<Step>)
    requires |states| == |steps| + 1 && Undisturbed(states, steps)
    ensures Calm(states, steps)
  {
    hide Fresh, Dropped;
    forall i | 0 <= i < |steps| ensures Harmless(states[i], steps[i], states[i + 1]) {
      assert Clear(states[i], steps[i]);
    }
  }

  /** Every fetch is stored in the very next step. */
  ghost predicate LoadsAtomic(steps: seq<Step>) {
    forall i :: 0 <= i < |steps| && steps[i].Fetch? ==> i + 1 < |steps| && steps[i + 1] == Store(steps[i].vector)
  }

  lemma {:induction false} NothingInFlight(states: seq<Service>, steps: seq<Step>, i: nat)
    requires Run(states, steps) && LoadsAtomic(steps) && i < |states|
    ensures i == 0 || !steps[i - 1].Fetch? ==> states[i].inFlight == map[]
    ensures i > 0 && steps[i - 1].Fetch? ==> states[i].inFlight.Keys == {steps[i - 1].vector}
  {
    hide MayLoad, Find, Stored, Invalidated;
    if i > 0 {
      NothingInFlight(states, steps, i - 1);
      assert Next(states[i - 1], steps[i - 1], states[i]);
      if i > 1 && steps[i - 2].Fetch? {
        assert steps[i - 1] == Store(steps[i - 2].vector);
        assert states[i].inFlight.Keys == {};
      }
    }
  }

  /** Fetch-and-store as one step: nothing is ever in flight when an event arrives, and the cache agrees throughout. */
  lemma AtomicLoadsAgree(states: seq<Service>, steps: seq<Step>)
    requires Run(states, steps) && LoadsAtomic(steps)
    ensures Undisturbed(states, steps) && Calm(states, steps)
    ensures forall i, v :: 0 <= i < |states| ==> EntryFresh(states[i], v)
  {
    hide Next, Harmless, EntryFresh;
    forall i | 0 <= i < |steps| ensures Clear(states[i], steps[i]) {
      NothingInFlight(states, steps, i);
    }
    UndisturbedIsCalm(states, steps);
    forall i, v | 0 <= i < |states| ensures EntryFresh(states[i], v) {
      CalmAgrees(states, steps, v, i);
    }
  }

  // ----- runs that do not -----

  /**
   * The condition can fail. A load reads the ConfigMap, the ConfigMap is deleted and the event delivered, and only
   * then the configuration is stored: the queue is empty and the cache serves what no longer exists.
   */
  lemma StaleFill(vector: string, configMap: ConfigMap, load: Load) returns (states: seq<Service>, steps: seq<Step>)
    requires load.Loaded? && MayLoad(Some(configMap.data), load)
    ensures Run(states, steps) && |states| == 5 && !Timely(states[3], steps[3], vector)
    ensures var s := states[4];
            && s.queue == [] && vector in s.cache && s.cache[vector] == load.document
            && Find(s, vector) == None && !MayLoad(Find(s, vector), Loaded(s.cache[vector]))
  {
    hide MayParse, Combine, ConfigMapName;
    PrefixUndone(vector);
    var name := ConfigMapName(vector);
    var s0 := Service(map[name := configMap], [], map[], map[]);
    var s1 := s0.(inFlight := map[vector := load]);
    var s2 := s1.(configMaps := map[], queue := [Deleted(name)]);
    var s3 := s2.(queue := []);
    var s4 := s3.(inFlight := map[], cache := map[vector := load.document]);
    states := [s0, s1, s2, s3, s4];
    steps := [Fetch(vector, load), Change, Deliver(0), Store(vector)];
    assert Tells(s2.queue[0], name) && Changes(s1, s2);
    assert Without(s2.queue, 0) == [] && Invalidated(s2.cache, s2.queue[0]) == map[];
    assert s3.inFlight - {vector} == map[];
    assert Next(s0, steps[0], s1) && Next(s1, steps[1], s2) && Next(s2, steps[2], s3) && Next(s3, steps[3], s4);
  }

  /**
   * Being calm is more than is needed: a load that was outdated while its event arrived may be current again by the
   * time it is stored, as when a ConfigMap with the same data is created again.
   */
  lemma RestoredInTime(vector: string, configMap: ConfigMap, load: Load) returns (states: seq<Service>, steps: seq<Step>)
    requires load.Loaded? && MayLoad(Some(configMap.data), load)
    ensures Run(states, steps) && |states| == 6 && !Calm(states, steps)
    ensures forall i :: 0 <= i < |states| ==> EntryFresh(states[i], vector)
    ensures states[5].queue == [] && vector in states[5].cache
  {
    hide MayParse, Combine, ConfigMapName;
    PrefixUndone(vector);
    var name := ConfigMapName(vector);
    var s0 := Service(map[name := configMap], [], map[], map[]);
    var s1 := s0.(inFlight := map[vector := load]);
    var s2 := s1.(configMaps := map[], queue := [Deleted(name)]);
    var s3 := s2.(queue := []);
    var s4 := s3.(configMaps := map[name := configMap.(version := configMap.version + 1)]);
    var s5 := s4.(inFlight := map[], cache := map[vector := load.document]);
    states := [s0, s1, s2, s3, s4, s5];
    steps := [Fetch(vector, load), Change, Deliver(0), Change, Store(vector)];
    assert Tells(s2.queue[0], name) && Changes(s1, s2) && Changes(s3, s4);
    assert Without(s2.queue, 0) == [] && Invalidated(s2.cache, s2.queue[0]) == map[];
    assert s4.inFlight - {vector} == map[];
    assert Next(s0, steps[0], s1) && Next(s1, steps[1], s2) && Next(s2, steps[2], s3);
    assert Next(s3, steps[3], s4) && Next(s4, steps[4], s5);
    assert !Harmless(states[2], steps[2], states[3]);
  }
}
