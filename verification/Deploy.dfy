/** Starting a container: create its pod, wait until it runs or completed, create its services. */
module Deploy {
  import opened Common
  import opened Kubernetes
  import opened Labels

  datatype DeployState = DeployPending | DeployFailed | DeployRunning | DeployCompleted

  /** A state with the error that came with it, if any. */
  datatype Verdict = Verdict(state: DeployState, err: bool)

  datatype Terminated = Terminated(reason: string, exitCode: int)

  datatype ContainerStatus = ContainerStatus(
    name: string,
    terminated: Option<Terminated>,
    lastTerminated: Option<Terminated>,
    restartCount: int,
    waiting: Option<string>,
    running: bool)

  /** What one look at the pod shows. */
  datatype Observation = GetFailed | Seen(statuses: seq<ContainerStatus>, phaseFailed: bool)

  const FAILED := Verdict(DeployFailed, true)

  predicate IsCompleted(t: Option<Terminated>) {
    t.Some? && t.value.reason == "Completed"
  }

  /** What the status of the main container decides; None when it decides nothing yet. */
  function Decide(s: ContainerStatus): Option<Verdict> {
    if IsCompleted(s.lastTerminated) || IsCompleted(s.terminated) then Some(Verdict(DeployCompleted, false))
    else if s.terminated.Some? && s.terminated.value.exitCode != 0 then Some(FAILED)
    else if s.restartCount > 0 then Some(FAILED)
    else if s.waiting == Some("ImagePullBackOff") then Some(FAILED)
    else if s.running then Some(Verdict(DeployRunning, false))
    else None
  }

  /** The first status of a container named "main" that decides. */
  function FirstDecision(statuses: seq<ContainerStatus>): Option<Verdict> {
    if statuses == [] then None
    else if statuses[0].name == "main" && Decide(statuses[0]).Some? then Decide(statuses[0])
    else FirstDecision(statuses[1..])
  }

  function Status(o: Observation): Verdict {
    match o
    case GetFailed => FAILED
    case Seen(statuses, phaseFailed) =>
      match FirstDecision(statuses)
      case Some(v) => v
      case None => if phaseFailed then FAILED else Verdict(DeployPending, false)
  }

  method GetContainerStatus(o: Observation) returns (v: Verdict)
    ensures v == Status(o)
  {
    if o.GetFailed? {
      return FAILED;
    }
    for i := 0 to |o.statuses|
      invariant FirstDecision(o.statuses) == FirstDecision(o.statuses[i..])
    {
      var status := o.statuses[i];
      assert o.statuses[i..][0] == status && o.statuses[i..][1..] == o.statuses[i + 1..];
      if status.name != "main" {
        continue;
      }
      if IsCompleted(status.lastTerminated) || IsCompleted(status.terminated) {
        return Verdict(DeployCompleted, false);
      }
      if status.terminated.Some? && status.terminated.value.exitCode != 0 {
        return FAILED;
      }
      if status.restartCount > 0 {
        return FAILED;
      }
      if status.waiting == Some("ImagePullBackOff") {
        return FAILED;
      }
      if status.running {
        return Verdict(DeployRunning, false);
      }
    }
    if o.phaseFailed {
      return FAILED;
    }
    return Verdict(DeployPending, false);
  }

  /** An error comes with DeployFailed and with no other state. */
  ghost predicate Agrees(v: Verdict) {
    v.err <==> v.state == DeployFailed
  }

  lemma {:induction false} DecisionAgrees(statuses: seq<ContainerStatus>)
    ensures FirstDecision(statuses).Some? ==>
              Agrees(FirstDecision(statuses).value) && FirstDecision(statuses).value.state != DeployPending
  {
    if statuses != [] {
      DecisionAgrees(statuses[1..]);
    }
  }

  lemma StatusAgrees(o: Observation)
    ensures Agrees(Status(o))
  {
    if o.Seen? {
      DecisionAgrees(o.statuses);
    }
  }

  // ---- what a look shows ----

  /** The main container completed, now or the last time it ran. */
  predicate ShowsCompletion(s: ContainerStatus) {
    || (s.terminated.Some? && s.terminated.value.reason == "Completed")
    || (s.lastTerminated.Some? && s.lastTerminated.value.reason == "Completed")
  }

  /** It crashed, was restarted, or its image cannot be had. */
  predicate ShowsFailure(s: ContainerStatus) {
    || (s.terminated.Some? && s.terminated.value.exitCode != 0)
    || s.restartCount > 0
    || s.waiting == Some("ImagePullBackOff")
  }

  /** A status of the main container that says how it is. */
  predicate Telling(s: ContainerStatus) {
    s.name == "main" && (ShowsCompletion(s) || ShowsFailure(s) || s.running)
  }

  /** The first status of the main container that says how it is. */
  ghost predicate FirstTelling(statuses: seq<ContainerStatus>, k: int) {
    0 <= k < |statuses| && Telling(statuses[k]) && forall j :: 0 <= j < k ==> !Telling(statuses[j])
  }

  ghost predicate NothingTold(statuses: seq<ContainerStatus>) {
    forall j :: 0 <= j < |statuses| ==> !Telling(statuses[j])
  }

  ghost predicate LooksCompleted(o: Observation) {
    o.Seen? && exists k :: FirstTelling(o.statuses, k) && ShowsCompletion(o.statuses[k])
  }

  ghost predicate LooksRunning(o: Observation) {
    o.Seen?
    && exists k :: FirstTelling(o.statuses, k) && !ShowsCompletion(o.statuses[k]) && !ShowsFailure(o.statuses[k])
  }

  ghost predicate LooksFailed(o: Observation) {
    || o.GetFailed?
    || (exists k :: FirstTelling(o.statuses, k) && !ShowsCompletion(o.statuses[k]) && ShowsFailure(o.statuses[k]))
    || (NothingTold(o.statuses) && o.phaseFailed)
  }

  ghost predicate LooksPending(o: Observation) {
    o.Seen? && NothingTold(o.statuses) && !o.phaseFailed
  }

  lemma {:induction false} FirstTold(statuses: seq<ContainerStatus>)
    ensures FirstDecision(statuses).None? <==> NothingTold(statuses)
    ensures FirstDecision(statuses).Some? ==>
              exists k :: FirstTelling(statuses, k) && FirstDecision(statuses) == Decide(statuses[k])
  {
    if statuses != [] {
      var rest := statuses[1..];
      FirstTold(rest);
      if Telling(statuses[0]) {
        assert FirstTelling(statuses, 0);
      } else if FirstDecision(rest).Some? {
        var k :| FirstTelling(rest, k) && FirstDecision(rest) == Decide(rest[k]);
        assert forall j :: 0 < j < |statuses| ==> statuses[j] == rest[j - 1];
        assert FirstTelling(statuses, k + 1) && statuses[k + 1] == rest[k];
      } else {
        assert forall j :: 0 < j < |statuses| ==> statuses[j] == rest[j - 1];
      }
    }
  }

  lemma FirstIsOne(statuses: seq<ContainerStatus>, j: int, k: int)
    requires FirstTelling(statuses, j) && FirstTelling(statuses, k)
    ensures j == k
  {
  }

  /** The verdict of a look, in terms of what it shows: the first telling status of "main" counts, then the phase. */
  lemma StatusExactly(o: Observation)
    ensures Status(o).state == DeployCompleted <==> LooksCompleted(o)
    ensures Status(o).state == DeployRunning <==> LooksRunning(o)
    ensures Status(o).state == DeployFailed <==> LooksFailed(o)
    ensures Status(o).state == DeployPending <==> LooksPending(o)
    ensures Status(o).err <==> LooksFailed(o)
  {
    if o.Seen? {
      FirstTold(o.statuses);
      StatusAgrees(o);
      if FirstDecision(o.statuses).Some? {
        var k :| FirstTelling(o.statuses, k) && FirstDecision(o.statuses) == Decide(o.statuses[k]);
        forall j | FirstTelling(o.statuses, j) ensures j == k {
          FirstIsOne(o.statuses, j, k);
        }
      } else {
        forall j | FirstTelling(o.statuses, j) ensures false {
        }
      }
    }
  }

  /** For one: a main container that ended with a non-zero exit code, and never completed, has failed. */
  lemma CrashIsFailure(s: ContainerStatus, phaseFailed: bool)
    requires s.name == "main" && s.terminated.Some? && s.terminated.value.exitCode != 0
    requires s.terminated.value.reason != "Completed" && s.lastTerminated.None?
    ensures Status(Seen([s], phaseFailed)) == Verdict(DeployFailed, true)
  {
    var o := Seen([s], phaseFailed);
    assert FirstTelling(o.statuses, 0);
    StatusExactly(o);
  }

  /** The first look, of at most `wait`, that is not pending. */
  ghost predicate FirstLook(look: nat -> Observation, wait: int, i: int) {
    0 <= i < wait && !LooksPending(look(i)) && forall j :: 0 <= j < i ==> LooksPending(look(j))
  }

  /** That look failed, or there is none. */
  ghost predicate NeverReady(look: nat -> Observation, wait: int) {
    forall i :: FirstLook(look, wait, i) ==> LooksFailed(look(i))
  }

  /** That look showed the state. */
  ghost predicate Shown(v: Verdict, look: nat -> Observation, wait: int) {
    exists i :: FirstLook(look, wait, i) && ShownAt(v, look(i))
  }

  ghost predicate ShownAt(v: Verdict, o: Observation) {
    || (v == Verdict(DeployRunning, false) && LooksRunning(o))
    || (v == Verdict(DeployCompleted, false) && LooksCompleted(o))
  }

  /**
   Polls at most `wait` times, once a second; `look(i)` is what the i-th look shows.
   The verdict is that of the first look that is not pending, and a failure when
   there is none.
   */
  method WaitReadyState(look: nat -> Observation, wait: int) returns (v: Verdict, ghost polls: nat)
    ensures polls <= if wait < 0 then 0 else wait
    ensures forall i :: 0 <= i < polls - 1 ==> Status(look(i)).state == DeployPending
    ensures || (polls > 0 && v == Status(look(polls - 1)) && v.state != DeployPending)
            || (v == FAILED && polls >= wait && forall i :: 0 <= i < polls ==> Status(look(i)).state == DeployPending)
    ensures forall i :: 0 <= i < polls - 1 ==> LooksPending(look(i))
    ensures v.state == DeployRunning ==> polls > 0 && LooksRunning(look(polls - 1))
    ensures v.state == DeployCompleted ==> polls > 0 && LooksCompleted(look(polls - 1))
    ensures v.state == DeployFailed ==>
              || (polls > 0 && LooksFailed(look(polls - 1)))
              || (polls >= wait && (polls > 0 ==> LooksPending(look(polls - 1))))
    ensures !v.err ==> Shown(v, look, wait)
    ensures v.err <==> NeverReady(look, wait)
    ensures v.state in {DeployFailed, DeployRunning, DeployCompleted}
    ensures Agrees(v)
  {
    polls := 0;
    var max := 0;
    while max < wait
      invariant polls == max && (max <= wait || max == 0)
      invariant forall i :: 0 <= i < polls ==> Status(look(i)).state == DeployPending && LooksPending(look(i))
    {
      v := GetContainerStatus(look(max));
      polls := polls + 1;
      StatusAgrees(look(max));
      StatusExactly(look(max));
      if v.state != DeployPending || v.err {
        assert FirstLook(look, wait, max);
        assert !v.err ==> ShownAt(v, look(max));
        return;
      }
      max := max + 1;
    }
    return FAILED, polls;
  }

  // ---- the start ----

  /**
   The labels and names a start uses, and what its calls that are not modelled
   report: reading the settings, assembling the pod, copying the volumes, mapping ports,
   watching the sidecar.
   */
  datatype Plan = Plan(
    instance: string,
    shortID: string,
    template: LabelMap,
    defaults: LabelMap,
    user: LabelMap,
    podName: string,
    configMaps: set<string>,
    services: set<string>,
    settingsErr: bool,
    assembleErr: bool,
    copyErr: bool,
    mapPortsErr: bool,
    dindErr: bool)
  {
    ghost function Refs(): set<Ref> {
      {Ref(Pod, podName)} + RefsOf(ConfigMap, configMaps) + RefsOf(Service, services)
    }
  }

  ghost function RefsOf(kind: ResourceKind, names: set<string>): set<Ref> {
    set name | name in names :: Ref(kind, name)
  }

  /** Nothing was lost or changed; what was added is among `refs` and tagged. */
  ghost predicate Grown(m: Resources, m': Resources, refs: set<Ref>, instance: string, shortID: string) {
    && (forall r :: r in m ==> r in m' && m'[r] == m[r])
    && (forall r :: r in m' && r !in m ==> r in refs && Tagged(m'[r].labels, instance, shortID))
  }

  /** Creations of one kind, of which only the last may have been refused. */
  ghost predicate Creates(calls: seq<Call>, kind: ResourceKind, err: bool, duplicate: bool) {
    && (forall i :: 0 <= i < |calls| ==> calls[i].request.CreateOf? && calls[i].request.kind == kind)
    && (forall i :: 0 <= i < |calls| - (if err then 1 else 0) ==> !calls[i].err && !calls[i].duplicate)
    && (err ==> calls != [] && calls[|calls| - 1].err && calls[|calls| - 1].duplicate == duplicate)
    && (duplicate ==> err)
  }

  lemma CreatesOneMore(calls: seq<Call>, kind: ResourceKind, name: string, err: bool, duplicate: bool)
    requires Creates(calls, kind, false, false) && (duplicate ==> err)
    ensures Creates(calls + [Call(CreateOf(kind, name), err, duplicate)], kind, err, duplicate)
  {
  }

  /** Creates resources of one kind one by one, up to the first error. */
  method CreateEach(cluster: Cluster, clock: Clock, plan: Plan, kind: ResourceKind, names: set<string>)
    returns (err: bool, exists_: bool)
    modifies cluster, clock
    ensures old(cluster.log) <= cluster.log
    ensures Grown(old(cluster.resources), cluster.resources, RefsOf(kind, names), plan.instance, plan.shortID)
    ensures !err ==> RefsOf(kind, names) <= cluster.resources.Keys
    ensures Creates(Since(cluster.log, old(cluster.log)), kind, err, exists_)
  {
    ghost var before := cluster.log;
    var todo := names;
    while todo != {}
      invariant todo <= names && before <= cluster.log && Creates(Since(cluster.log, before), kind, false, false)
      invariant Grown(old(cluster.resources), cluster.resources, RefsOf(kind, names), plan.instance, plan.shortID)
      invariant forall name :: name in names && name !in todo ==> Ref(kind, name) in cluster.resources
    {
      var name :| name in todo;
      todo := todo - {name};
      var labels := GetLabels(map[], plan.defaults, plan.user, plan.instance, plan.shortID);
      var now := clock.Now();
      ghost var calls := Since(cluster.log, before);
      err, exists_ := cluster.Create(kind, name, labels, now);
      CreatesOneMore(calls, kind, name, err, exists_);
      assert Since(cluster.log, before) == calls + [Call(CreateOf(kind, name), err, exists_)];
      if err {
        return;
      }
    }
    return false, false;
  }

  /** A step that is not modelled reports an error. */
  predicate Fails(plan: Plan, waits: bool) {
    plan.settingsErr || plan.assembleErr || (waits && plan.copyErr) || plan.mapPortsErr || plan.dindErr
  }

  /** The calls had to do with a pod that is there already: another request of the same start. */
  ghost predicate Again(calls: seq<Call>) {
    exists i :: 0 <= i < |calls| && calls[i].request.kind == Pod && calls[i].duplicate
  }

  /** A creation was refused. That the pod exists is no error, nor is it then that a service does. */
  ghost predicate Refused(calls: seq<Call>, again: bool) {
    exists i :: 0 <= i < |calls| && IsRefusal(calls[i], again)
  }

  predicate IsRefusal(call: Call, again: bool) {
    && call.request.CreateOf? && call.err
    && !(call.duplicate && (call.request.kind == Pod || (call.request.kind == Service && again)))
  }

  /** Exactly when a start that made these calls reports an error. */
  ghost predicate GoesWrong(plan: Plan, waits: bool, look: nat -> Observation, timeOut: int, calls: seq<Call>,
                            again: bool)
  {
    Fails(plan, waits) || NeverReady(look, timeOut) || Refused(calls, again)
  }

  lemma RefusedConcat(a: seq<Call>, b: seq<Call>, again: bool)
    ensures Refused(a + b, again) <==> Refused(a, again) || Refused(b, again)
  {
    var c := a + b;
    assert forall i :: 0 <= i < |a| ==> c[i] == a[i];
    assert forall i :: 0 <= i < |b| ==> c[|a| + i] == b[i];
  }

  lemma AgainConcat(a: seq<Call>, b: seq<Call>)
    ensures Again(a + b) <==> Again(a) || Again(b)
  {
    var c := a + b;
    assert forall i :: 0 <= i < |a| ==> c[i] == a[i];
    assert forall i :: 0 <= i < |b| ==> c[|a| + i] == b[i];
  }

  /** Of creations of one kind other than the pod, only the last can be a refusal. */
  lemma RefusedOfKind(calls: seq<Call>, kind: ResourceKind, err: bool, duplicate: bool, again: bool)
    requires Creates(calls, kind, err, duplicate) && kind != Pod
    ensures !Again(calls)
    ensures Refused(calls, again) <==> err && !(duplicate && kind == Service && again)
  {
    if err && !(duplicate && kind == Service && again) {
      assert IsRefusal(calls[|calls| - 1], again);
    }
  }

  /** What an error-free start means: no step reported an error, and the first telling look showed the state. */
  ghost predicate WentWell(v: Verdict, plan: Plan, waits: bool, look: nat -> Observation, timeOut: int) {
    !Fails(plan, waits) && Shown(v, look, timeOut)
  }

  /** From the pod on: copy, wait, map the ports, create the services, watch the sidecar. */
  method FinishPod(cluster: Cluster, clock: Clock, plan: Plan, waits: bool, look: nat -> Observation, timeOut: int,
                   duplicate: bool)
    returns (v: Verdict)
    requires !plan.settingsErr && !plan.assembleErr
    modifies cluster, clock
    ensures old(cluster.log) <= cluster.log
    ensures Grown(old(cluster.resources), cluster.resources, RefsOf(Service, plan.services), plan.instance,
              plan.shortID)
    ensures v.state in {DeployFailed, DeployRunning, DeployCompleted}
    ensures v.state == DeployFailed ==> v.err
    ensures !v.err ==> WentWell(v, plan, waits, look, timeOut)
    ensures !v.err && !duplicate ==> RefsOf(Service, plan.services) <= cluster.resources.Keys
    ensures !Again(Since(cluster.log, old(cluster.log)))
    ensures v.err <==> GoesWrong(plan, waits, look, timeOut, Since(cluster.log, old(cluster.log)), duplicate)
  {
    if waits && plan.copyErr {
      return FAILED;
    }
    ghost var polls;
    v, polls := WaitReadyState(look, timeOut);
    if v.err {
      return;
    }
    if plan.mapPortsErr {
      return FAILED;
    }
    var serr, sexists := CreateEach(cluster, clock, plan, Service, plan.services);
    RefusedOfKind(Since(cluster.log, old(cluster.log)), Service, serr, sexists, duplicate);
    if serr && !(duplicate && sexists) {
      return Verdict(v.state, true);
    }
    if plan.dindErr {
      return FAILED;
    }
  }

  lemma PodRefused(log0: seq<Call>, log1: seq<Call>, log2: seq<Call>, podName: string, err: bool, duplicate: bool)
    requires log0 <= log1 && Creates(Since(log1, log0), ConfigMap, false, false) && (duplicate ==> err)
    requires log2 == log1 + [Call(CreateOf(Pod, podName), err, duplicate)]
    ensures Again(Since(log2, log0)) <==> duplicate
    ensures forall again :: Refused(Since(log2, log0), again) <==> err && !duplicate
  {
    var a, p := Since(log1, log0), Call(CreateOf(Pod, podName), err, duplicate);
    assert Since(log2, log0) == a + [p];
    AgainConcat(a, [p]);
    assert [p][0] == p;
    forall again ensures Refused(Since(log2, log0), again) <==> err && !duplicate {
      RefusedOfKind(a, ConfigMap, false, false, again);
      RefusedConcat(a, [p], again);
    }
  }

  method StartPod(cluster: Cluster, clock: Clock, plan: Plan, waits: bool, look: nat -> Observation, timeOut: int)
    returns (v: Verdict)
    modifies cluster, clock
    ensures old(cluster.log) <= cluster.log
    ensures Grown(old(cluster.resources), cluster.resources, plan.Refs(), plan.instance, plan.shortID)
    ensures v.state in {DeployFailed, DeployRunning, DeployCompleted}
    ensures v.state == DeployFailed ==> v.err
    ensures v.state != DeployFailed ==> Ref(Pod, plan.podName) in cluster.resources
    ensures !v.err ==> WentWell(v, plan, waits, look, timeOut)
    ensures !v.err && Ref(Pod, plan.podName) !in old(cluster.resources) ==> plan.Refs() <= cluster.resources.Keys
    ensures var calls := Since(cluster.log, old(cluster.log));
            v.err <==> GoesWrong(plan, waits, look, timeOut, calls, Again(calls))
  {
    if plan.settingsErr {
      return FAILED;
    }
    ghost var log0 := cluster.log;
    var cerr, cexists := CreateEach(cluster, clock, plan, ConfigMap, plan.configMaps);
    ghost var log1 := cluster.log;
    if cerr || plan.assembleErr {
      RefusedOfKind(Since(log1, log0), ConfigMap, cerr, cexists, Again(Since(log1, log0)));
      return FAILED;
    }
    var labels := GetLabels(plan.template, plan.defaults, plan.user, plan.instance, plan.shortID);
    var now := clock.Now();
    var err, duplicate := cluster.Create(Pod, plan.podName, labels, now);
    ghost var log2 := cluster.log;
    PodRefused(log0, log1, log2, plan.podName, err, duplicate);
    if err && !duplicate {
      return FAILED;
    }
    v := FinishPod(cluster, clock, plan, waits, look, timeOut, duplicate);
    SinceTwice(log0, log2, cluster.log);
    AgainConcat(Since(log2, log0), Since(cluster.log, log2));
    RefusedConcat(Since(log2, log0), Since(cluster.log, log2), duplicate);
  }

  lemma DeletionRefusesNothing(calls: seq<Call>, call: Call)
    requires call.request.DeleteOf? && !call.duplicate
    ensures Again(calls + [call]) <==> Again(calls)
    ensures forall again :: Refused(calls + [call], again) <==> Refused(calls, again)
  {
    AgainConcat(calls, [call]);
    forall again ensures Refused(calls + [call], again) <==> Refused(calls, again) {
      RefusedConcat(calls, [call], again);
    }
  }

  /** The last call was this one. */
  ghost predicate EndsWith(log: seq<Call>, request: Request) {
    log != [] && log[|log| - 1].request == request
  }

  /**
   A start that does not end in DeployFailed has its pod in place - and, when it is
   error-free and the pod is new, everything else it needs; one that does ends with a
   call that deletes the pod of that name. Nothing else disappears, and all that
   appears carries the labels of the container.
   */
  method StartContainer(cluster: Cluster, clock: Clock, plan: Plan, waits: bool, look: nat -> Observation, timeOut: int)
    returns (v: Verdict)
    modifies cluster, clock
    ensures v.state in {DeployFailed, DeployRunning, DeployCompleted}
    ensures v.state == DeployFailed ==> v.err
    ensures v.state != DeployFailed ==> Ref(Pod, plan.podName) in cluster.resources
    ensures !v.err ==> WentWell(v, plan, waits, look, timeOut)
    ensures !v.err && Ref(Pod, plan.podName) !in old(cluster.resources) ==> plan.Refs() <= cluster.resources.Keys
    ensures v.state == DeployFailed ==>
              && old(cluster.log) < cluster.log && EndsWith(cluster.log, DeleteOf(Pod, plan.podName))
              && (cluster.log[|cluster.log| - 1].err || Ref(Pod, plan.podName) !in cluster.resources)
    ensures v.state != DeployFailed ==>
        Grown(old(cluster.resources), cluster.resources, plan.Refs(), plan.instance, plan.shortID)
    ensures forall r :: r in old(cluster.resources) && r != Ref(Pod, plan.podName) ==>
              r in cluster.resources && cluster.resources[r] == old(cluster.resources)[r]
    ensures forall r :: r in cluster.resources && r !in old(cluster.resources) ==>
              r in plan.Refs() && Tagged(cluster.resources[r].labels, plan.instance, plan.shortID)
    ensures old(cluster.log) <= cluster.log
    ensures var calls := Since(cluster.log, old(cluster.log));
            v.err <==> GoesWrong(plan, waits, look, timeOut, calls, Again(calls))
  {
    v := StartPod(cluster, clock, plan, waits, look, timeOut);
    ghost var log1 := cluster.log;
    if v.state == DeployFailed {
      var err := cluster.Delete(Pod, plan.podName);
      SinceTwice(old(cluster.log), log1, cluster.log);
      DeletionRefusesNothing(Since(log1, old(cluster.log)), Call(DeleteOf(Pod, plan.podName), err));
    }
  }
}
