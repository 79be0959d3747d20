/** How long an execution can wait for its Gateway: both deadlines are finite, and a run may use up one after the other. */
module BoundedWaiting {
  import opened Strings
  import opened Conditions
  import opened DeploymentResults
  import opened RouteRules
  import opened RouterGateway
  import opened StageRoutes
  import opened StageRouteEffects
  import opened StageRouteRuns

  /** One Reconcile of the execution under watch. Between two polls the rest of the cluster may change at will. */
  datatype Poll = Poll(before: Cluster, oracle: Oracle, compiled: Compiled, after: Cluster, outcome: Outcome)

  /** 300 s in steps of 15 s, both ends included. */
  const POLLS_PER_DEADLINE := READY_TIMEOUT / POLL_INTERVAL + 1

  ghost predicate IsPoll(e: string, started: int, p: Poll) {
    && Reconciled(p.before, e, p.oracle, p.compiled) == (p.after, p.outcome)
    && p.outcome != Error
    && e in p.before.executions && p.before.executions[e].created == started
    // clocks agree: nothing was created in the future
    && started <= p.oracle.now
    && (p.before.gateway.Some? ==> p.before.gateway.value.created <= p.oracle.now)
  }

  /** Error-free polls of one execution, at least the requeue interval apart; nobody else removes the Gateway. */
  ghost predicate Polling(e: string, started: int, polls: seq<Poll>) {
    && (forall i :: 0 <= i < |polls| ==> IsPoll(e, started, polls[i]))
    && (forall i :: 0 <= i < |polls| - 1 ==> polls[i].oracle.now + POLL_INTERVAL <= polls[i + 1].oracle.now)
    && (forall i :: 0 <= i < |polls| - 1 && polls[i].after.gateway.Some? ==>
          && polls[i + 1].before.gateway.Some?
          && polls[i + 1].before.gateway.value.created == polls[i].after.gateway.value.created)
    && (forall i :: 0 <= i < |polls| - 1 ==>
          e in polls[i].after.executions && polls[i + 1].before.executions[e] == polls[i].after.executions[e])
  }

  function PendingCount(polls: seq<Poll>): nat {
    if polls == [] then 0 else (if polls[0].outcome.Requeue? then 1 else 0) + PendingCount(polls[1..])
  }

  lemma {:induction false} PendingSplit(polls: seq<Poll>, k: nat)
    requires k <= |polls|
    ensures PendingCount(polls) == PendingCount(polls[..k]) + PendingCount(polls[k..])
  {
    if k > 0 {
      PendingSplit(polls[1..], k - 1);
      assert polls[..k][1..] == polls[1..][..k - 1];
      assert polls[k..] == polls[1..][k - 1..];
    } else {
      assert polls[0..] == polls;
    }
  }

  /** Polls that can only be pending up to a deadline: as many as fit before it. */
  lemma {:induction false} PendingBefore(polls: seq<Poll>, deadline: int)
    requires forall i :: 0 <= i < |polls| - 1 ==> polls[i].oracle.now + POLL_INTERVAL <= polls[i + 1].oracle.now
    requires forall i :: 0 <= i < |polls| && polls[i].outcome.Requeue? ==> polls[i].oracle.now <= deadline
    ensures PendingCount(polls) <=
            if polls == [] || deadline < polls[0].oracle.now then 0
            else (deadline - polls[0].oracle.now) / POLL_INTERVAL + 1
  {
    if polls != [] {
      PendingBefore(polls[1..], deadline);
      if |polls| > 1 && polls[1].oracle.now <= deadline {
        assert polls[1..][0] == polls[1];
        assert (deadline - polls[1].oracle.now) + POLL_INTERVAL <= deadline - polls[0].oracle.now;
        assert (deadline - polls[1].oracle.now) / POLL_INTERVAL + 1 <= (deadline - polls[0].oracle.now) / POLL_INTERVAL;
      }
    }
  }

  /** Why a poll is pending: no Gateway and an execution younger than the timeout, or a Gateway that is. */
  lemma PendingReason(e: string, started: int, p: Poll)
    requires IsPoll(e, started, p) && p.outcome.Requeue?
    ensures p.after.gateway.None? ==> p.oracle.now <= started + READY_TIMEOUT
    ensures p.after.gateway.Some? ==>
              p.after.gateway.value.created <= p.oracle.now <= p.after.gateway.value.created + READY_TIMEOUT
  {
    hide Reconciled, ReconcileMoves, StatusMoves;
    ReconciledEffect(p.before, e, p.oracle, p.compiled);
  }

  ghost predicate Waiting(p: Poll) {
    p.outcome.Requeue? && p.after.gateway.Some?
  }

  /** The Gateway created at `c` is there, or the execution has failed. */
  ghost predicate Watched(s: Cluster, e: string, c: int) {
    && e in s.executions
    && ((s.gateway.Some? && s.gateway.value.created == c) || IsTrue(s.executions[e].conditions, ExecutionFailed))
  }

  lemma WatchedPoll(e: string, started: int, p: Poll, c: int)
    requires IsPoll(e, started, p) && Watched(p.before, e, c)
    ensures Watched(p.after, e, c)
    ensures p.outcome.Requeue? ==> c <= p.oracle.now <= c + READY_TIMEOUT
  {
    hide Reconciled, ReconcileMoves, StatusMoves;
    ReconciledEffect(p.before, e, p.oracle, p.compiled);
    if IsTrue(p.before.executions[e].conditions, ExecutionFailed) {
      FailedReconcile(p.before, e, p.oracle, p.compiled);
    } else {
      if p.after.gateway != p.before.gateway {
        RemovalFails(p.before, e, p.oracle, p.compiled);
      }
      StatusKept(p.before, e, p.after);
    }
  }

  lemma StatusKept(s: Cluster, e: string, s': Cluster)
    requires e in s.executions && StatusMoves(s, e, s')
    ensures e in s'.executions
  {
  }

  /** From a watched state on, pending polls fall into one deadline. */
  lemma {:induction false} WatchedPolls(e: string, started: int, polls: seq<Poll>, c: int)
    requires Polling(e, started, polls) && (polls != [] ==> Watched(polls[0].before, e, c))
    ensures forall i :: 0 <= i < |polls| && polls[i].outcome.Requeue? ==>
              c <= polls[i].oracle.now <= c + READY_TIMEOUT
  {
    hide IsPoll;
    if polls != [] {
      WatchedPoll(e, started, polls[0], c);
      PollingTail(e, started, polls);
      if |polls| > 1 {
        assert polls[1..][0] == polls[1];
        StillThere(e, started, polls[1]);
        assert polls[1].before.executions[e] == polls[0].after.executions[e];
      }
      WatchedPolls(e, started, polls[1..], c);
      assert forall i :: 1 <= i < |polls| ==> polls[i] == polls[1..][i - 1];
    }
  }

  lemma StillThere(e: string, started: int, p: Poll)
    requires IsPoll(e, started, p)
    ensures e in p.before.executions
  {
  }

  lemma PollingTail(e: string, started: int, polls: seq<Poll>)
    requires Polling(e, started, polls) && polls != []
    ensures Polling(e, started, polls[1..])
  {
    hide IsPoll;
    var tail := polls[1..];
    assert forall i :: 0 <= i < |tail| ==> tail[i] == polls[i + 1];
  }

  lemma {:induction false} PollingFrom(e: string, started: int, polls: seq<Poll>, k: nat)
    requires Polling(e, started, polls) && k <= |polls|
    ensures Polling(e, started, polls[k..])
  {
    hide IsPoll;
    if k == 0 {
      assert polls[0..] == polls;
    } else {
      PollingTail(e, started, polls);
      PollingFrom(e, started, polls[1..], k - 1);
      assert polls[1..][k - 1..] == polls[k..];
    }
  }

  /** The first poll that waits for a Gateway, if any. */
  lemma {:induction false} FirstWait(polls: seq<Poll>) returns (k: nat)
    ensures k <= |polls|
    ensures forall i :: 0 <= i < k ==> !Waiting(polls[i])
    ensures k < |polls| ==> Waiting(polls[k])
  {
    if polls == [] || Waiting(polls[0]) {
      k := 0;
    } else {
      var rest := FirstWait(polls[1..]);
      k := rest + 1;
      forall i | 0 <= i < k ensures !Waiting(polls[i]) {
        assert i > 0 ==> polls[i] == polls[1..][i - 1];
      }
    }
  }

  /**
   * Bounded waiting: an execution reports pending at most 42 times, 21 while its class is missing and 21 for a
   * Gateway, before it is ready or failed.
   */
  lemma WaitsAtMost42(e: string, started: int, polls: seq<Poll>)
    requires Polling(e, started, polls)
    ensures PendingCount(polls) <= 2 * POLLS_PER_DEADLINE == 42
  {
    hide IsPoll;
    var k := FirstWait(polls);
    PendingSplit(polls, k);
    ClassDeadline(e, started, polls, k);
    if k < |polls| {
      GatewayDeadline(e, started, polls, k);
    } else {
      assert polls[k..] == [];
    }
  }

  lemma ClassDeadline(e: string, started: int, polls: seq<Poll>, k: nat)
    requires Polling(e, started, polls) && k <= |polls|
    requires forall i :: 0 <= i < k ==> !Waiting(polls[i])
    ensures PendingCount(polls[..k]) <= POLLS_PER_DEADLINE
  {
    hide IsPoll;
    var early := polls[..k];
    forall i | 0 <= i < |early| && early[i].outcome.Requeue? ensures early[i].oracle.now <= started + READY_TIMEOUT {
      PendingReason(e, started, polls[i]);
    }
    PendingBefore(early, started + READY_TIMEOUT);
    if early != [] {
      StartedBefore(e, started, polls[0]);
    }
  }

  lemma StartedBefore(e: string, started: int, p: Poll)
    requires IsPoll(e, started, p)
    ensures started <= p.oracle.now
  {
  }

  lemma GatewayDeadline(e: string, started: int, polls: seq<Poll>, k: nat)
    requires Polling(e, started, polls) && k < |polls| && Waiting(polls[k])
    ensures PendingCount(polls[k..]) <= POLLS_PER_DEADLINE
  {
    hide IsPoll;
    var late := polls[k..];
    PollingFrom(e, started, polls, k);
    PendingReason(e, started, polls[k]);
    var c := late[0].after.gateway.value.created;
    PollingTail(e, started, late);
    if |late| > 1 {
      assert late[1..][0] == late[1];
      StillThere(e, started, late[1]);
    }
    WatchedPolls(e, started, late[1..], c);
    forall i | 0 <= i < |late| && late[i].outcome.Requeue? ensures late[i].oracle.now <= c + READY_TIMEOUT {
      assert i > 0 ==> late[i] == late[1..][i - 1];
    }
    PendingBefore(late, c + READY_TIMEOUT);
  }

  // ----- the bound is reached -----

  const CLASS := "c"

  function WaiterConfig(): Raw {
    JsonText(Obj(map["gatewayClassName" := Str(CLASS)]))
  }

  /** One guarded Stage, and one execution "e" that provisions the Gateway of class c for deployment `vd`. */
  function Waiter(vd: VectorDeployment, conditions: ExecutionStatus, gateway: Option<Gateway>, classes: set<string>): Cluster {
    Cluster(map["s" := Stage(0, {RouteCleanup}, false, None)], map[], map["a" := Activation("s", "v", "d")], map["d" := vd],
            map["e" := Execution(0, "a", Some(WaiterConfig()), 0, conditions)], map[], gateway, classes)
  }

  lemma WaiterProvisions()
    ensures ParseConfig(Some(WaiterConfig())) == Some(GatewayConfig(DEFAULT_GATEWAY_NAME, "", CLASS, true))
  {
    var fields := map["gatewayClassName" := Str(CLASS)];
    assert "gatewayClassName"[7] == 'C' && "gatewayNamespace"[7] == 'N' && |"gatewayName"| == 11;
    assert StringField(fields, "gatewayName") == Some("") && StringField(fields, "gatewayNamespace") == Some("");
  }

  function Smooth(now: int): Oracle {
    Oracle(now, {}, {}, true, None)
  }

  /** A Reconcile of the waiter reports what its Gateway step returns. */
  lemma WaiterReports(vd: VectorDeployment, rules: seq<Rule>, conditions: ExecutionStatus, before: Option<Gateway>,
                      after: Option<Gateway>, classes: set<string>, now: int, reason: Reason)
    requires rules != [] && !IsTrue(conditions, ExecutionFailed)
    requires EnsureGateway(Waiter(vd, conditions, before, classes), CLASS, 0, Smooth(now))
             == Provision(Waiter(vd, conditions, after, classes), Some(GatewayState(Pending, reason, false)))
    ensures Reconciled(Waiter(vd, conditions, before, classes), "e", Smooth(now), Rules(rules))
            == (Waiter(vd, conditions[InProgress := Condition(True, reason)], after, classes), Requeue(POLL_INTERVAL))
  {
    hide ParseConfig, EnsureGateway, WaiterConfig;
    WaiterProvisions();
    var s, o := Waiter(vd, conditions, before, classes), Smooth(now);
    var x := s.executions["e"];
    var p := ReconcileExecution(s, x, o, Rules(rules));
    assert p == Progress(Waiter(vd, conditions, after, classes), conditions[InProgress := Condition(True, reason)],
                         Requeue(POLL_INTERVAL));
    assert map["e" := x]["e" := x.(conditions := p.conditions)] == map["e" := x.(conditions := p.conditions)];
  }

  /** The Gateway that is created once the class is there, just after the first deadline. */
  function LateGateway(): Gateway {
    NewGateway(CLASS, true, POLLS_PER_DEADLINE * POLL_INTERVAL)
  }

  function WaitingFor(reason: Reason): ExecutionStatus {
    map[InProgress := Condition(True, reason)]
  }

  /** The status that poll `i` finds, and the Gateway. */
  function StatusBefore(i: nat): ExecutionStatus {
    if i == 0 then map[]
    else if i <= POLLS_PER_DEADLINE then WaitingFor(GatewayClassNotFound)
    else WaitingFor(WaitingForClusterAddress)
  }

  function GatewayBefore(i: nat): Option<Gateway> {
    if i <= POLLS_PER_DEADLINE then None else Some(LateGateway())
  }

  function ClassesAt(i: nat): set<string> {
    if i < POLLS_PER_DEADLINE then {} else {CLASS}
  }

  /** The class is missing for the whole of the first deadline, and the Gateway gets no address in the second. */
  function WaitPoll(vd: VectorDeployment, rules: seq<Rule>, i: nat): Poll {
    Poll(Waiter(vd, StatusBefore(i), GatewayBefore(i), ClassesAt(i)), Smooth(i * POLL_INTERVAL), Rules(rules),
         Waiter(vd, StatusBefore(i + 1), GatewayBefore(i + 1), ClassesAt(i)), Requeue(POLL_INTERVAL))
  }

  lemma WaitPollGateway(vd: VectorDeployment, i: nat)
    requires i < 2 * POLLS_PER_DEADLINE
    ensures EnsureGateway(Waiter(vd, StatusBefore(i), GatewayBefore(i), ClassesAt(i)), CLASS, 0, Smooth(i * POLL_INTERVAL))
            == Provision(Waiter(vd, StatusBefore(i), GatewayBefore(i + 1), ClassesAt(i)),
                         Some(GatewayState(Pending, if i < POLLS_PER_DEADLINE then GatewayClassNotFound
                                                    else WaitingForClusterAddress, false)))
  {
    hide WaiterConfig, StatusBefore;
  }

  lemma IsWaitPoll(vd: VectorDeployment, rules: seq<Rule>, i: nat)
    requires rules != [] && i < 2 * POLLS_PER_DEADLINE
    ensures IsPoll("e", 0, WaitPoll(vd, rules, i))
  {
    hide EnsureGateway, Reconciled, WaiterConfig;
    WaitPollGateway(vd, i);
    var reason := if i < POLLS_PER_DEADLINE then GatewayClassNotFound else WaitingForClusterAddress;
    WaiterReports(vd, rules, StatusBefore(i), GatewayBefore(i), GatewayBefore(i + 1), ClassesAt(i), i * POLL_INTERVAL, reason);
    assert StatusBefore(i)[InProgress := Condition(True, reason)] == StatusBefore(i + 1);
  }

  lemma {:induction false} AllPending(polls: seq<Poll>)
    requires forall i :: 0 <= i < |polls| ==> polls[i].outcome.Requeue?
    ensures PendingCount(polls) == |polls|
  {
    if polls != [] {
      AllPending(polls[1..]);
    }
  }

  /** The bound is tight: any deployment that compiles to a route can be kept waiting through all 42 polls. */
  lemma WaitsAll42(vd: VectorDeployment, rules: seq<Rule>) returns (polls: seq<Poll>)
    requires MayCompile("s", vd, Rules(rules)) && rules != []
    ensures Polling("e", 0, polls) && PendingCount(polls) == 42
    ensures forall i :: 0 <= i < |polls| ==> CompiledFor(polls[i].before, "e", polls[i].compiled)
  {
    hide IsPoll, MayCompile, WaiterConfig;
    polls := seq(42, i requires 0 <= i < 42 => WaitPoll(vd, rules, i));
    forall i | 0 <= i < 42 ensures IsPoll("e", 0, polls[i]) {
      IsWaitPoll(vd, rules, i);
    }
    AllPending(polls);
  }
}
