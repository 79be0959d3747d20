/** Supersession: what a restart of the operator, which reconciles every old execution again, can and cannot undo. */
module StageRouteSupersession {
  import opened Strings
  import opened Conditions
  import opened RouteRules
  import opened Routing
  import opened RouterGateway
  import opened StageRoutes
  import opened StageRouteEffects
  import opened StageRouteRuns

  /** The exact verdict on an error-free lookup: gone Stage, another active version and a gone own one, or a strictly newer active one. */
  lemma SupersededExactly(s: Cluster, a: Activation, o: Oracle)
    requires !Fails(o, GetStage) && !Fails(o, GetOwnVersion) && !Fails(o, GetActiveVersion)
    ensures Supersession(s, a, o) == Superseded <==>
            || a.stage !in s.stages
            || (exists b ::
                  && s.stages[a.stage].active == Some(b) && b != a.stageVersion
                  && (a.stageVersion in s.versions && b in s.versions ==> s.versions[a.stageVersion] < s.versions[b])
                  && (a.stageVersion in s.versions ==> b in s.versions))
  {
    if a.stage in s.stages && s.stages[a.stage].active.Some? {
      var b := s.stages[a.stage].active.value;
      assert s.stages[a.stage].active == Some(b);
    }
  }

  /** A failing lookup is an error exactly when the verdict depended on it. */
  lemma LookupFailsExactly(s: Cluster, a: Activation, o: Oracle)
    ensures Supersession(s, a, o) == LookupFailed <==>
            || Fails(o, GetStage)
            || (&& a.stage in s.stages && s.stages[a.stage].active.Some? && s.stages[a.stage].active.value != a.stageVersion
                && (Fails(o, GetOwnVersion) || (a.stageVersion in s.versions && Fails(o, GetActiveVersion))))
  {
    if Supersession(s, a, o) == LookupFailed && !Fails(o, GetStage) {
      assert a.stage in s.stages && s.stages[a.stage].active.Some?;
    }
  }

  // ----- the contract of the environment -----

  /** `stage` is the same object in both states. */
  predicate Same(s: Cluster, s': Cluster, stage: string) {
    stage in s.stages && stage in s'.stages && s.stages[stage].uid == s'.stages[stage].uid
  }

  /** The active version of `stage` is at least as new as version `a` of state `s`. */
  ghost predicate ActiveSince(s: Cluster, a: string, s': Cluster, stage: string)
    requires a in s.versions
  {
    && stage in s'.stages && s'.stages[stage].active.Some? && s'.stages[stage].active.value in s'.versions
    && s.versions[a] <= s'.versions[s'.stages[stage].active.value]
  }

  /** One move of the environment: StageVersions are kept, and the active one gives way only to one created no earlier. */
  ghost predicate Advances(s: Cluster, s': Cluster, stage: string) {
    && (forall v :: v in s.versions ==> v in s'.versions && s'.versions[v] == s.versions[v])
    && (Same(s, s', stage) ==>
          forall a :: s.stages[stage].active == Some(a) && a in s.versions ==> ActiveSince(s, a, s', stage))
  }

  ghost predicate Orderly(states: seq<Cluster>, steps: seq<Step>, stage: string) {
    && Path(states, steps)
    && forall k :: 0 <= k < |steps| && steps[k].Environment? ==> Advances(states[k], states[k + 1], stage)
  }

  /** From state `i` to state `j` it is one and the same Stage object. */
  ghost predicate Lasts(states: seq<Cluster>, stage: string, i: nat, j: nat)
    requires j < |states|
  {
    forall k :: i <= k <= j ==> Same(states[i], states[k], stage)
  }

  // ----- what the operator's own steps keep -----

  lemma CleanUpActive(s: Cluster, stage: string, o: Oracle, st: string)
    requires st in CleanedUp(s, stage, o).0.stages
    ensures st in s.stages && CleanedUp(s, stage, o).0.stages[st].active == s.stages[st].active
  {
    hide StageRouteName;
  }

  /** Neither controller writes the active version or a StageVersion. */
  lemma StepAdvances(s: Cluster, step: Step, s': Cluster, stage: string)
    requires Next(s, step, s') && (step.Environment? ==> Advances(s, s', stage))
    ensures Advances(s, s', stage)
  {
    hide Reconciled, CleanedUp, CompiledFor, Supersession, ParseConfig, StageRouteName;
    match step
    case Reconcile(e, o, c) => ReconciledEffect(s, e, o, c);
    case CleanUp(st, o) =>
      CleanUpFrame(s, st, o);
      if stage in s'.stages {
        CleanUpActive(s, st, o, stage);
      }
    case Environment =>
  }

  lemma {:induction false} StaysActive(states: seq<Cluster>, steps: seq<Step>, stage: string, a: string, i: nat, j: nat)
    requires Orderly(states, steps, stage) && i <= j < |states| && Lasts(states, stage, i, j)
    requires states[i].stages[stage].active == Some(a) && a in states[i].versions
    ensures ActiveSince(states[i], a, states[j], stage)
  {
    hide Next;
    if i < j {
      StaysActive(states, steps, stage, a, i, j - 1);
      assert Next(states[j - 1], steps[j - 1], states[j]);
      StepAdvances(states[j - 1], steps[j - 1], states[j], stage);
      assert Same(states[i], states[j - 1], stage) && Same(states[i], states[j], stage);
    }
  }

  /**
   * Supersession safety: once a version is active, no later Reconcile of an execution for a strictly older version
   * changes any route, Stage or Gateway, for as long as the Stage has not been re-created.
   */
  lemma SupersessionSafety(states: seq<Cluster>, steps: seq<Step>, stage: string, a: string, i: nat, j: nat)
    requires Orderly(states, steps, stage)
    requires i <= j < |steps| && stage in states[i].stages && states[i].stages[stage].active == Some(a) && a in states[i].versions
    requires stage in states[j].stages ==> Lasts(states, stage, i, j)
    requires steps[j].Reconcile? && ActivatesOlder(states[j], steps[j].execution, stage, states[i].versions[a])
    ensures states[j + 1].(executions := states[j].executions) == states[j]
  {
    hide Reconciled, CompiledFor, CleanedUp, Touches, Advances;
    var e, o, c := steps[j].execution, steps[j].oracle, steps[j].compiled;
    assert Next(states[j], steps[j], states[j + 1]);
    ReconciledEffect(states[j], e, o, c);
    if stage in states[j].stages {
      StaysActive(states, steps, stage, a, i, j);
    }
    assert Supersession(states[j], states[j].activations[states[j].executions[e].activation], o) != Current;
  }

  /** Execution `e` activates a version of `stage` that was created before `time`. */
  ghost predicate ActivatesOlder(s: Cluster, e: string, stage: string, time: int) {
    && e in s.executions && s.executions[e].activation in s.activations
    && var va := s.activations[s.executions[e].activation];
       va.stage == stage && va.stageVersion in s.versions && s.versions[va.stageVersion] < time
  }

  // ----- a re-created Stage -----

  /** An execution of version "old" of stage s, while version "new" exists. */
  function Leftover(vd: VectorDeployment, stages: map<string, Stage>): Cluster {
    Cluster(stages, map["old" := 1, "new" := 2], map["a" := Activation("s", "old", "d")], map["d" := vd],
            map["e" := Execution(0, "a", None, 0, map[])], map[], None, {})
  }

  function Smooth(): Oracle {
    Oracle(0, {}, {}, true, None)
  }

  lemma RecreatedWrites(vd: VectorDeployment, rules: seq<Rule>)
    requires rules != []
    ensures
      var s' := Reconciled(Leftover(vd, map["s" := Stage(2, {}, false, None)]), "e", Smooth(), Rules(rules)).0;
      StageRouteName("s") in s'.routes && s'.routes[StageRouteName("s")].rules == rules
  {
    hide StageRouteName;
  }

  /** The environment deletes the Stage and creates it again. */
  lemma RecreationMoves(vd: VectorDeployment)
    requires vd.name == "d"
    ensures
      var s0, s1, s2 := Leftover(vd, map["s" := Stage(1, {}, false, Some("new"))]), Leftover(vd, map[]),
                        Leftover(vd, map["s" := Stage(2, {}, false, None)]);
      && Initial(s0) && EnvironmentMoves(s0, s1) && EnvironmentMoves(s1, s2)
      && Advances(s0, s1, "s") && Advances(s1, s2, "s") && !Same(s0, s2, "s")
      && ActivatesOlder(s2, "e", "s", s0.versions["new"])
  {
  }

  /**
   * The condition is needed: delete a Stage and create it again, and until it has an active version of its own an
   * execution for the older version writes its route, although the newer one had been active under that name.
   */
  lemma RecreationReverts(vd: VectorDeployment, rules: seq<Rule>) returns (states: seq<Cluster>, steps: seq<Step>)
    requires MayCompile("s", vd, Rules(rules)) && rules != [] && vd.name == "d"
    ensures Run(states, steps) && Orderly(states, steps, "s") && |steps| == 3
    ensures "s" in states[0].stages && states[0].stages["s"].active == Some("new") && "new" in states[0].versions
    ensures steps[2].Reconcile? && ActivatesOlder(states[2], steps[2].execution, "s", states[0].versions["new"])
    ensures "s" in states[2].stages && !Lasts(states, "s", 0, 2)
    ensures StageRouteName("s") !in states[2].routes
    ensures StageRouteName("s") in states[3].routes && states[3].routes[StageRouteName("s")].rules == rules
  {
    hide MayCompile, StageRouteName, Reconciled, Advances, EnvironmentMoves, Initial, ActivatesOlder, Same;
    RecreationMoves(vd);
    var s0 := Leftover(vd, map["s" := Stage(1, {}, false, Some("new"))]);
    var s1 := Leftover(vd, map[]);
    var s2 := Leftover(vd, map["s" := Stage(2, {}, false, None)]);
    var s3 := Reconciled(s2, "e", Smooth(), Rules(rules)).0;
    RecreatedWrites(vd, rules);
    states := [s0, s1, s2, s3];
    steps := [Environment, Environment, Reconcile("e", Smooth(), Rules(rules))];
    assert Next(s0, steps[0], s1) && Next(s1, steps[1], s2) && Next(s2, steps[2], s3);
    assert !Same(states[0], states[2], "s");
  }
}
