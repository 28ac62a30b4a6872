/**
 The life of one container record: its five flags under every API handler and
 the reaper, each handler one atomic step - except a restart, which is three:
 other handlers may come in while it sleeps, the record already in hand, and
 while it waits for the pod to disappear.

 `Apply` specifies one step; the class is proved against it, and the theorems
 hold for every run of steps.
 */
module Lifecycle {
  import opened Channels
  import opened Deploy
  import Kubernetes
  import Text

  datatype Flags = Flags(running: bool, completed: bool, failed: bool, stopped: bool, killed: bool)

  const CREATED := Flags(false, false, false, false, false)

  /**
   What happened to the container in the cluster: a backend delete was issued, and
   removed the pod or `failed` to; a start succeeded; or a start reported an error,
   with a pod of that name in the cluster when it returned or not.
   */
  datatype Call = Deleted(failed: bool) | Started | StartFailed(podLeft: bool)

  /**
   `pod` says whether a pod of the container is in the cluster. `fetched` counts the
   restarts that hold the record but have not begun to delete, `restarts` those that
   wait for their pod to disappear.
   */
  datatype Life = Life(flags: Flags, calls: seq<Call>, stored: bool, pod: bool, fetched: nat, restarts: nat)

  /**
   What the backend start returns (as StartContainer of module Deploy guarantees),
   whether asking for the pod's address, needed when there are ports, fails, and
   whether a pod is in the cluster then: after DeployFailed one is when deleting it
   failed, which the code ignores.
   */
  datatype RawOutcome = Outcome(v: Verdict, addressErr: bool, podLeft: bool)

  ghost predicate Possible(o: RawOutcome) {
    && o.v.state in {DeployFailed, DeployRunning, DeployCompleted}
    && (o.v.state == DeployFailed ==> o.v.err)
    && (o.v.state != DeployFailed ==> o.podLeft)
  }

  type Outcome = o: RawOutcome | Possible(o) witness Outcome(FAILED, false, false)

  /**
   The outcome of a backend start on a cluster: what StartContainer guarantees makes
   it a possible one, its pod left exactly when it is in the cluster at the end.
   */
  method BackendStart(cluster: Kubernetes.Cluster, clock: Kubernetes.Clock, plan: Plan, waits: bool,
                      look: nat -> Observation, timeOut: int, addressErr: bool)
    returns (o: Outcome)
    modifies cluster, clock
    ensures o.addressErr == addressErr
    ensures o.podLeft <==> Kubernetes.Ref(Kubernetes.Pod, plan.podName) in cluster.resources
    ensures o.v.state == DeployFailed ==> EndsWith(cluster.log, Kubernetes.DeleteOf(Kubernetes.Pod, plan.podName))
  {
    var v := Deploy.StartContainer(cluster, clock, plan, waits, look, timeOut);
    o := Outcome(v, addressErr, Kubernetes.Ref(Kubernetes.Pod, plan.podName) in cluster.resources);
  }

  /** Any status the backend can report: an error comes with DeployFailed. */
  type StatusVerdict = v: Verdict | v.err <==> v.state == DeployFailed witness FAILED

  /** `failed` says that the backend delete, if one is issued, does not remove the pod; its error is only logged. */
  datatype Event =
    | Start(o: Outcome)
    | Attach(stream: bool, o: Outcome)
    | PutArchive(preArchive: bool, o: Outcome)
    | RestartFetch
    | RestartBegin(watchErr: bool, saveErr: bool, failed: bool)
    | RestartEnd(o: Outcome)
    | Stop(failed: bool)
    | Kill(signal: string, failed: bool)
    | Refresh(allowed: bool, v: StatusVerdict)
    | Delete(dbErr: bool, failed: bool)
    | Reap(dbErr: bool, failed: bool)

  const SIGNALS := {"kil", "term", "quit", "int"}

  /** The signals that stop a container; any other is ignored. */
  predicate Accepted(signal: string) {
    signal == "" || Text.Lower(signal) in SIGNALS
  }

  // ---- the specification ----

  predicate Succeeds(o: Outcome) {
    !o.v.err && !o.addressErr
  }

  function StartLife(l: Life, o: Outcome): Life {
    if !Succeeds(o) then l.(calls := l.calls + [StartFailed(o.podLeft)], pod := o.podLeft)
    else l.(calls := l.calls + [Started], pod := true,
            flags := Flags(o.v.state == DeployRunning, o.v.state == DeployCompleted, false, false, false))
  }

  function StartIfIdle(l: Life, o: Outcome): Life {
    if l.flags.running || l.flags.completed then l else StartLife(l, o)
  }

  function DeleteLife(l: Life, failed: bool): Life {
    l.(calls := l.calls + [Deleted(failed)], pod := l.pod && failed)
  }

  predicate IsDead(f: Flags) {
    f.stopped || f.killed
  }

  function DeleteUnlessDead(l: Life, failed: bool): Life {
    if IsDead(l.flags) then l else DeleteLife(l, failed)
  }

  function Apply(l: Life, e: Event): Life {
    if e.RestartBegin? then
      if l.fetched == 0 then l else BeginRestart(l, e.watchErr, e.saveErr, e.failed)
    else if e.RestartEnd? then
      if l.restarts == 0 then l else EndRestart(l, e.o)
    else if !l.stored then l
    else
      match e
      case Start(o) => StartIfIdle(l, o)
      case Attach(stream, o) => if stream then StartIfIdle(l, o) else l
      case PutArchive(preArchive, o) => if preArchive then l else StartIfIdle(l, o)
      case RestartFetch => l.(fetched := l.fetched + 1)
      case Stop(failed) =>
        var d := DeleteUnlessDead(l, failed);
        d.(flags := d.flags.(running := false, completed := false, stopped := true))
      case Kill(signal, failed) =>
        if !Accepted(signal) then l
        else
          var d := DeleteUnlessDead(l, failed);
          d.(flags := d.flags.(running := false, completed := false, killed := true))
      case Refresh(allowed, v) =>
        if l.flags.completed || !allowed then l
        else if v.err then l.(flags := l.flags.(failed := true))
        else if v.state == DeployCompleted then l.(flags := l.flags.(completed := true, running := false))
        else l
      case Delete(dbErr, failed) => DeleteUnlessDead(l, failed).(stored := dbErr)
      case Reap(dbErr, failed) => DeleteLife(l, failed).(stored := dbErr)
  }

  /** The second step of a restart works on the record in hand, stored or not, and saves it. */
  function BeginRestart(l: Life, watchErr: bool, saveErr: bool, failed: bool): Life
    requires l.fetched > 0
  {
    var d := DeleteLife(l, failed);
    d.(flags := d.flags.(running := false, completed := false, stopped := true),
       stored := l.stored || !saveErr,
       fetched := l.fetched - 1,
       restarts := l.restarts + if watchErr || saveErr then 0 else 1)
  }

  function EndRestart(l: Life, o: Outcome): Life
    requires l.restarts > 0
  {
    StartLife(l, o).(stored := l.stored || Succeeds(o), restarts := l.restarts - 1)
  }

  function Run(l: Life, es: seq<Event>): Life
    decreases |es|
  {
    if es == [] then l else Run(Apply(l, es[0]), es[1..])
  }

  const NEW := Life(CREATED, [], true, false, 0, 0)

  // ---- invariants ----

  /** Never running and completed, never running while stopped or killed. */
  predicate Consistent(f: Flags) {
    !(f.running && f.completed) && !(f.running && (f.stopped || f.killed))
  }

  /** A backend delete was issued, and no start succeeded since. */
  predicate DeletedSinceStart(calls: seq<Call>) {
    calls != [] &&
    match calls[|calls| - 1]
    case Deleted(_) => true
    case Started => false
    case StartFailed(_) => DeletedSinceStart(calls[..|calls| - 1])
  }

  predicate Leaves(c: Call) {
    c == Started || c == StartFailed(true)
  }

  predicate Removes(c: Call) {
    c == Deleted(false) || c == StartFailed(false)
  }

  /** Some start left a pod, and nothing that follows removed it. */
  ghost predicate PodLeft(calls: seq<Call>) {
    exists i :: 0 <= i < |calls| && LeftAt(calls, i)
  }

  ghost predicate LeftAt(calls: seq<Call>, i: nat)
    requires i < |calls|
  {
    Leaves(calls[i]) && forall j :: i < j < |calls| ==> !Removes(calls[j])
  }

  ghost predicate Good(l: Life) {
    && Consistent(l.flags)
    && (IsDead(l.flags) ==> DeletedSinceStart(l.calls))
    && (l.flags.running ==> Started in l.calls)
    && (l.pod <==> PodLeft(l.calls))
  }

  lemma CallAppended(calls: seq<Call>, c: Call)
    ensures DeletedSinceStart(calls + [c]) <==> c.Deleted? || (c.StartFailed? && DeletedSinceStart(calls))
    ensures PodLeft(calls + [c]) <==> Leaves(c) || (!Removes(c) && PodLeft(calls))
  {
    var more := calls + [c];
    assert more[..|calls|] == calls;
    if Leaves(c) {
      assert LeftAt(more, |calls|);
    }
    if !Removes(c) && PodLeft(calls) {
      var i :| 0 <= i < |calls| && LeftAt(calls, i);
      assert LeftAt(more, i);
    }
    if PodLeft(more) {
      var i :| 0 <= i < |more| && LeftAt(more, i);
      if i < |calls| {
        assert more[|calls|] == c && LeftAt(calls, i);
      }
    }
  }

  lemma StartIsGood(l: Life, o: Outcome)
    requires Good(l)
    ensures Good(StartLife(l, o))
  {
    CallAppended(l.calls, if Succeeds(o) then Started else StartFailed(o.podLeft));
  }

  lemma DeleteIsGood(l: Life, failed: bool, flags: Flags)
    requires Good(l) && Consistent(flags) && (flags.running ==> l.flags.running)
    ensures Good(DeleteLife(l, failed).(flags := flags))
  {
    CallAppended(l.calls, Deleted(failed));
  }

  /** Good does not look at the record and the restarts. */
  lemma GoodIgnores(l: Life, stored: bool, fetched: nat, restarts: nat)
    requires Good(l)
    ensures Good(l.(stored := stored, fetched := fetched, restarts := restarts))
  {
  }

  lemma StepIsGood(l: Life, e: Event)
    requires Good(l)
    ensures Good(Apply(l, e))
  {
    if e.Start? || e.Attach? || e.PutArchive? || e.RestartEnd? {
      StartIsGood(l, e.o);
      GoodIgnores(StartLife(l, e.o), Apply(l, e).stored, Apply(l, e).fetched, Apply(l, e).restarts);
    } else if e.RestartBegin? || e.Stop? || e.Kill? || e.Delete? || e.Reap? {
      var r := Apply(l, e);
      DeleteIsGood(l, e.failed, r.flags);
      GoodIgnores(DeleteLife(l, e.failed).(flags := r.flags), r.stored, r.fetched, r.restarts);
    }
  }

  lemma {:induction false} RunIsGood(l: Life, es: seq<Event>)
    requires Good(l)
    ensures Good(Run(l, es))
    decreases |es|
  {
    if es != [] {
      StepIsGood(l, es[0]);
      RunIsGood(Apply(l, es[0]), es[1..]);
    }
  }

  /**
   In every reachable state the flags are consistent, a running container was
   started, and a stopped or killed one had its backend delete since.
   */
  lemma ReachableIsGood(es: seq<Event>)
    ensures Consistent(Run(NEW, es).flags)
    ensures Run(NEW, es).flags.running ==> Started in Run(NEW, es).calls
    ensures IsDead(Run(NEW, es).flags) ==> DeletedSinceStart(Run(NEW, es).calls)
  {
    RunIsGood(NEW, es);
  }

  /** No record is removed without a backend delete after the last successful start. */
  lemma RemovalIsPrecededByDelete(es: seq<Event>, e: Event)
    ensures var l := Run(NEW, es);
            l.stored && !Apply(l, e).stored ==> DeletedSinceStart(Apply(l, e).calls)
  {
    var l := Run(NEW, es);
    RunIsGood(NEW, es);
    if l.stored && !Apply(l, e).stored {
      CallAppended(l.calls, Deleted(e.failed));
    }
  }

  // ---- what the flags mean ----

  datatype Flag = Running | Completed | Failed | Stopped | Killed

  predicate IsSet(f: Flags, flag: Flag) {
    match flag
    case Running => f.running
    case Completed => f.completed
    case Failed => f.failed
    case Stopped => f.stopped
    case Killed => f.killed
  }

  /** The event starts the container, successfully, in that state. */
  predicate StartsIn(l: Life, e: Event, state: DeployState) {
    match e
    case Start(o) => l.stored && !l.flags.running && !l.flags.completed && o.v == Verdict(state, false) && !o.addressErr
    case Attach(stream, o) =>
      stream && l.stored && !l.flags.running && !l.flags.completed && o.v == Verdict(state, false) && !o.addressErr
    case PutArchive(preArchive, o) =>
      !preArchive && l.stored && !l.flags.running && !l.flags.completed && o.v == Verdict(state, false) && !o.addressErr
    case RestartEnd(o) => l.restarts > 0 && o.v == Verdict(state, false) && !o.addressErr
    case _ => false
  }

  predicate Starts(l: Life, e: Event) {
    StartsIn(l, e, DeployRunning) || StartsIn(l, e, DeployCompleted)
  }

  /** The event stops the container: a stop, or a restart that goes ahead. */
  predicate Stops(l: Life, e: Event) {
    (e.Stop? && l.stored) || (e.RestartBegin? && l.fetched > 0)
  }

  /** The event kills the container. */
  predicate Kills(l: Life, e: Event) {
    e.Kill? && l.stored && Accepted(e.signal)
  }

  /** The event is a look at the pod that is allowed and shows this state. */
  predicate Sees(l: Life, e: Event, state: DeployState) {
    e.Refresh? && l.stored && !l.flags.completed && e.allowed && e.v.state == state
  }

  predicate Sets(flag: Flag, l: Life, e: Event) {
    match flag
    case Running => StartsIn(l, e, DeployRunning)
    case Completed => StartsIn(l, e, DeployCompleted) || Sees(l, e, DeployCompleted)
    case Failed => Sees(l, e, DeployFailed)
    case Stopped => Stops(l, e)
    case Killed => Kills(l, e)
  }

  predicate Clears(flag: Flag, l: Life, e: Event) {
    match flag
    case Running => StartsIn(l, e, DeployCompleted) || Stops(l, e) || Kills(l, e) || Sees(l, e, DeployCompleted)
    case Completed => StartsIn(l, e, DeployRunning) || Stops(l, e) || Kills(l, e)
    case _ => Starts(l, e)
  }

  lemma FlagStep(flag: Flag, l: Life, e: Event)
    ensures IsSet(Apply(l, e).flags, flag) <==> Sets(flag, l, e) || (IsSet(l.flags, flag) && !Clears(flag, l, e))
  {
  }

  /** At position `k` of the run the flag is set, and it is not cleared later. */
  ghost predicate SetAt(flag: Flag, l: Life, es: seq<Event>, k: nat)
    requires k < |es|
  {
    Sets(flag, Run(l, es[..k]), es[k]) && StaysUncleared(flag, l, es, k + 1)
  }

  ghost predicate StaysUncleared(flag: Flag, l: Life, es: seq<Event>, from: nat) {
    forall j :: from <= j < |es| ==> !Clears(flag, Run(l, es[..j]), es[j])
  }

  lemma {:induction false} RunSnoc(l: Life, es: seq<Event>, e: Event)
    ensures Run(l, es + [e]) == Apply(Run(l, es), e)
    decreases |es|
  {
    if es == [] {
      assert [e][1..] == [] && [] + [e] == [e];
      assert Run(l, [e]) == Run(Apply(l, e), []);
    } else {
      assert (es + [e])[1..] == es[1..] + [e];
      RunSnoc(Apply(l, es[0]), es[1..], e);
    }
  }

  /** The flag holds at the end of a run exactly when something set it that nothing cleared since. */
  lemma {:induction false} FlagOverRun(flag: Flag, l: Life, es: seq<Event>)
    ensures IsSet(Run(l, es).flags, flag)
       <==> (exists k :: 0 <= k < |es| && SetAt(flag, l, es, k))
            || (IsSet(l.flags, flag) && StaysUncleared(flag, l, es, 0))
    decreases |es|
  {
    if es != [] {
      var n := |es| - 1;
      var front, e := es[..n], es[n];
      FlagOverRun(flag, l, front);
      assert es == front + [e];
      RunSnoc(l, front, e);
      FlagStep(flag, Run(l, front), e);
      UnclearedFront(flag, l, es);
      if k :| 0 <= k < n && SetAt(flag, l, front, k) {
        assert front[..k] == es[..k];
        assert !Clears(flag, Run(l, front), e) ==> SetAt(flag, l, es, k);
      }
      if k :| 0 <= k < |es| && SetAt(flag, l, es, k) {
        assert es[..n] == front;
        if k < n {
          assert front[..k] == es[..k];
          assert SetAt(flag, l, front, k);
        }
      }
      if Sets(flag, Run(l, front), e) {
        assert SetAt(flag, l, es, n);
      }
    }
  }

  lemma UnclearedFront(flag: Flag, l: Life, es: seq<Event>)
    requires es != []
    ensures forall k :: 0 <= k < |es| ==>
              (StaysUncleared(flag, l, es, k)
               <==> StaysUncleared(flag, l, es[..|es| - 1], k) && !Clears(flag, Run(l, es[..|es| - 1]), es[|es| - 1]))
  {
    var n := |es| - 1;
    var front := es[..n];
    forall j | 0 <= j < n ensures front[..j] == es[..j] && front[j] == es[j] {
    }
  }

  /**
   What the flags of a container mean, in every reachable state. It is running exactly
   when a start came up running and nothing since stopped it, killed it, restarted it,
   or saw or made it complete; completed exactly when a start or a look found it so, and
   it was neither started, stopped, killed nor restarted since; stopped, killed and
   failed exactly when it was and no start succeeded since.
   */
  lemma FlagsMeanExactly(flag: Flag, es: seq<Event>)
    ensures IsSet(Run(NEW, es).flags, flag) <==> exists k :: 0 <= k < |es| && SetAt(flag, NEW, es, k)
  {
    FlagOverRun(flag, NEW, es);
  }

  /** What is reported right after a successful start of an idle record is what the backend saw. */
  lemma StartIsReported(l: Life, o: Outcome)
    requires l.stored && !l.flags.running && !l.flags.completed && Succeeds(o)
    ensures var f := Apply(l, Start(o)).flags;
            && (StateString(f) == "running" <==> o.v.state == DeployRunning)
            && (StateString(f) == "exited" <==> o.v.state == DeployCompleted)
  {
    StateStringAgrees(Apply(l, Start(o)).flags);
  }

  // ---- where the guard is too trusting ----

  /** In every reachable state a pod is in the cluster exactly when some start left it and nothing removed it since. */
  lemma PodIsLeftExactly(es: seq<Event>)
    ensures Run(NEW, es).pod <==> PodLeft(Run(NEW, es).calls)
  {
    RunIsGood(NEW, es);
  }

  /**
   In every reachable state, exactly when the delete handler leaves a pod behind:
   some start left one that nothing removed since, and the handler issues no delete
   (the record is dead) or one that fails.
   */
  lemma DeleteLeavesPodExactly(es: seq<Event>, dbErr: bool, failed: bool)
    requires Run(NEW, es).stored
    ensures var l := Run(NEW, es);
            Apply(l, Delete(dbErr, failed)).pod <==> PodLeft(l.calls) && (IsDead(l.flags) || failed)
  {
    RunIsGood(NEW, es);
  }

  lemma RunThree(l: Life, a: Event, b: Event, c: Event)
    ensures Run(l, [a, b, c]) == Apply(Apply(Apply(l, a), b), c)
    ensures Run(l, [a, b]) == Apply(Apply(l, a), b)
  {
    var l1 := Apply(l, a);
    var l2 := Apply(l1, b);
    assert [a, b, c][1..] == [b, c] && [b, c][1..] == [c] && [c][1..] == [];
    assert [a, b][1..] == [b] && [b][1..] == [];
    assert Run(l, [a, b, c]) == Run(l1, [b, c]) == Run(l2, [c]) == Run(Apply(l2, c), []);
    assert Run(l, [a, b]) == Run(l1, [b]) == Run(l2, []);
  }

  /**
   The dead side is reachable, through any failed start that leaves its pod - the
   services or the address could not be had, or deleting the pod failed: stop,
   start, delete. The handler then does not even try.
   */
  lemma DeleteCanLeavePod(o: Outcome, failed: bool)
    requires !Succeeds(o) && o.podLeft
    ensures var l := Run(NEW, [Stop(false), Start(o), Delete(false, failed)]);
            !l.stored && l.pod && |l.calls| == 2
  {
    RunThree(NEW, Stop(false), Start(o), Delete(false, failed));
  }

  /** So is the other side: the error of the backend delete is logged, and the record removed. */
  lemma DeleteErrorLeavesPod(o: Outcome)
    requires Succeeds(o)
    ensures var l := Run(NEW, [Start(o), Delete(false, true)]);
            !l.stored && l.pod
  {
    RunThree(NEW, Start(o), Delete(false, true), RestartFetch);
  }

  // ---- removed records that come back ----

  /** The outcomes of the save in the second steps of restarts, in order. */
  function Saves(es: seq<Event>): seq<bool> {
    if es == [] then [] else (if es[0].RestartBegin? then [es[0].saveErr] else []) + Saves(es[1..])
  }

  /** The outcomes of the starts in the last steps of restarts, in order. */
  function Ends(es: seq<Event>): seq<Outcome> {
    if es == [] then [] else (if es[0].RestartEnd? then [es[0].o] else []) + Ends(es[1..])
  }

  /** One of the restarts that hold the record saves it. */
  ghost predicate Saved(fetched: nat, saves: seq<bool>) {
    exists k :: 0 <= k < |saves| && k < fetched && !saves[k]
  }

  /** One of the waiting restarts starts it. */
  ghost predicate Restarted(restarts: nat, ends: seq<Outcome>) {
    exists k :: 0 <= k < |ends| && k < restarts && Succeeds(ends[k])
  }

  /** At some point of the run the record is stored. */
  ghost predicate EverStored(l: Life, es: seq<Event>)
    decreases |es|
  {
    l.stored || (es != [] && EverStored(Apply(l, es[0]), es[1..]))
  }

  lemma SavedStep(fetched: nat, saveErr: bool, saves: seq<bool>)
    ensures Saved(fetched, [saveErr] + saves) <==> fetched > 0 && (!saveErr || Saved(fetched - 1, saves))
  {
    var all := [saveErr] + saves;
    if fetched > 0 && saveErr && Saved(fetched - 1, saves) {
      var k :| 0 <= k < |saves| && k < fetched - 1 && !saves[k];
      assert !all[k + 1];
    }
    if fetched > 0 && !saveErr {
      assert !all[0];
    }
    if Saved(fetched, all) {
      var k :| 0 <= k < |all| && k < fetched && !all[k];
      assert k > 0 ==> saves[k - 1] == all[k];
    }
  }

  lemma RestartedStep(restarts: nat, o: Outcome, ends: seq<Outcome>)
    ensures Restarted(restarts, [o] + ends) <==> restarts > 0 && (Succeeds(o) || Restarted(restarts - 1, ends))
  {
    var all := [o] + ends;
    if restarts > 0 && Restarted(restarts - 1, ends) {
      var k :| 0 <= k < |ends| && k < restarts - 1 && Succeeds(ends[k]);
      assert all[k + 1] == ends[k];
    }
    if restarts > 0 && Succeeds(o) {
      assert all[0] == o;
    }
    if Restarted(restarts, all) {
      var k :| 0 <= k < |all| && k < restarts && Succeeds(all[k]);
      assert k > 0 ==> ends[k - 1] == all[k];
    }
  }

  ghost predicate RevivesWith(l: Life, saves: seq<bool>, ends: seq<Outcome>) {
    Saved(l.fetched, saves) || Restarted(l.restarts, ends)
  }

  /** One step of a removed record, in front of the saves and starts that follow. */
  lemma ReviveStep(l: Life, e: Event, saves: seq<bool>, ends: seq<Outcome>)
    requires !l.stored
    ensures var all := RevivesWith(l, (if e.RestartBegin? then [e.saveErr] else []) + saves,
        (if e.RestartEnd? then [e.o] else []) + ends);
            if Apply(l, e).stored then all else all <==> RevivesWith(Apply(l, e), saves, ends)
  {
    assert [] + saves == saves && [] + ends == ends;
    if e.RestartBegin? {
      SavedStep(l.fetched, e.saveErr, saves);
    } else if e.RestartEnd? {
      RestartedStep(l.restarts, e.o, ends);
    }
  }

  /**
   Exactly which runs bring a removed record back: those where a save or a start of
   a restart that was under way before the removal succeeds.
   */
  lemma {:induction false} RevivedExactly(l: Life, es: seq<Event>)
    requires !l.stored
    ensures EverStored(l, es) <==> RevivesWith(l, Saves(es), Ends(es))
    decreases |es|
  {
    if es != [] {
      ReviveStep(l, es[0], Saves(es[1..]), Ends(es[1..]));
      if !Apply(l, es[0]).stored {
        RevivedExactly(Apply(l, es[0]), es[1..]);
      }
    }
  }

  /** A removed record stays removed, whatever comes, if and only if no restart is under way. */
  lemma StaysRemovedExactly(l: Life)
    requires !l.stored
    ensures (forall es :: !Run(l, es).stored) <==> l.fetched == 0 && l.restarts == 0
  {
    if l.fetched > 0 {
      RunOne(l, RestartBegin(false, false, false));
    } else if l.restarts > 0 {
      RunOne(l, RestartEnd(Outcome(Verdict(DeployRunning, false), false, true)));
    } else {
      forall es ensures !Run(l, es).stored {
        StaysRemoved(l, es);
      }
    }
  }

  lemma RunOne(l: Life, e: Event)
    ensures Run(l, [e]) == Apply(l, e)
  {
    assert [e][1..] == [];
    assert Run(l, [e]) == Run(Apply(l, e), []);
  }

  lemma {:induction false} StaysRemoved(l: Life, es: seq<Event>)
    requires !l.stored && l.fetched == 0 && l.restarts == 0
    ensures Run(l, es) == l
    decreases |es|
  {
    if es != [] {
      assert Apply(l, es[0]) == l;
      StaysRemoved(l, es[1..]);
    }
  }

  /** Both kinds happen: a delete while the restart sleeps, or while it waits. */
  lemma RestartRevivesDeleted(o: Outcome, watchErr: bool, failed: bool)
    requires Succeeds(o)
    ensures var es := [RestartFetch, Delete(false, failed), RestartBegin(watchErr, false, failed)];
            !Run(NEW, es[..2]).stored && Run(NEW, es).stored
    ensures var l := Apply(NEW, RestartFetch);
            var es := [RestartBegin(false, false, failed), Delete(false, failed), RestartEnd(o)];
            !Run(l, es[..2]).stored && Run(l, es).stored
  {
    var d, l := Delete(false, failed), Apply(NEW, RestartFetch);
    var es := [RestartFetch, d, RestartBegin(watchErr, false, failed)];
    assert es[..2] == [RestartFetch, d];
    RunThree(NEW, RestartFetch, d, RestartBegin(watchErr, false, failed));
    var fs := [RestartBegin(false, false, failed), d, RestartEnd(o)];
    assert fs[..2] == [RestartBegin(false, false, failed), d];
    RunThree(l, RestartBegin(false, false, failed), d, RestartEnd(o));
  }

  // ---- signals ----

  /** Exactly which signals kill a container; every other one changes nothing at all. */
  lemma KillsExactly(l: Life, signal: string, failed: bool)
    requires l.stored
    ensures Apply(l, Kill(signal, failed)).flags.killed <==> l.flags.killed || Accepted(signal)
    ensures !Accepted(signal) ==> Apply(l, Kill(signal, failed)) == l
    ensures Accepted(signal) ==> !Apply(l, Kill(signal, failed)).flags.running
  {
  }

  /** The four names are accepted, and so is no name. */
  lemma FourAreAccepted(signal: string)
    requires signal == "" || signal == "kil" || signal == "term" || signal == "quit" || signal == "int"
    ensures Accepted(signal)
  {
    assert Text.Lower(signal) == signal;
  }

  /** An accepted signal has three or four letters, the first of them k, t, q or i. */
  predicate LooksAccepted(signal: string) {
    || signal == ""
    || (|signal| == 3 && (Text.LowerChar(signal[0]) == 'k' || Text.LowerChar(signal[0]) == 'i'))
    || (|signal| == 4 && (Text.LowerChar(signal[0]) == 't' || Text.LowerChar(signal[0]) == 'q'))
  }

  lemma AcceptedShape(signal: string)
    ensures Accepted(signal) ==> LooksAccepted(signal)
  {
    if signal != "" {
      assert Text.Lower(signal)[0] == Text.LowerChar(signal[0]);
    }
  }

  /** The usual names and numbers are not among the accepted ones. */
  lemma UsualSignalsAreIgnored(l: Life, signal: string, failed: bool)
    requires |signal| > 4 || signal == "KILL" || signal == "HUP" || signal == "9" || signal == "15"
    ensures Apply(l, Kill(signal, failed)) == l
  {
    AcceptedShape(signal);
  }

  // ---- what is reported ----

  function StateString(f: Flags): string {
    if f.running then "running"
    else if f.stopped || f.killed then "dead"
    else if f.failed then "dead"
    else if f.completed then "exited"
    else "created"
  }

  /** In consistent states each word means one thing, and no flag is contradicted. */
  lemma StateStringAgrees(f: Flags)
    requires Consistent(f)
    ensures StateString(f) == "running" <==> f.running
    ensures StateString(f) == "dead" <==> f.stopped || f.killed || (f.failed && !f.running)
    ensures StateString(f) == "exited" <==> f.completed && !f.stopped && !f.killed && !f.failed
    ensures StateString(f) == "created" <==> f == CREATED
  {
  }

  // ---- the code ----

  class Container {
    var running: bool
    var completed: bool
    var failed: bool
    var stopped: bool
    var killed: bool
    const channels: Registry
    ghost var calls: seq<Call>
    ghost var stored: bool
    ghost var pod: bool
    ghost var fetched: nat
    ghost var restarts: nat

    ghost function State(): Life
      reads this
    {
      Life(Flags(running, completed, failed, stopped, killed), calls, stored, pod, fetched, restarts)
    }

    constructor (channels: Registry)
      ensures State() == NEW && this.channels == channels
    {
      this.channels := channels;
      running, completed, failed, stopped, killed := false, false, false, false, false;
      calls, stored, pod, fetched, restarts := [], true, false, 0, 0;
    }

    /** The backend delete; its error is only logged. */
    method BackendDelete(deleteFails: bool)
      modifies this`calls, this`pod
      ensures State() == DeleteLife(old(State()), deleteFails)
    {
      calls, pod := calls + [Deleted(deleteFails)], pod && deleteFails;
    }

    method SignalAll()
      requires channels.Valid()
      modifies channels, channels.stopChannels, channels.attachChannels
      ensures channels.Valid() && channels.registered == old(channels.registered)
      ensures channels.stopChannels == [] && channels.attachChannels == []
      ensures forall c :: c in old(channels.stopChannels) + old(channels.attachChannels) ==> c.Signalled()
    {
      channels.SignalDetach();
      channels.SignalStop();
    }

    /** StartContainer of the API layer: on success it sets every flag, otherwise none. */
    method StartContainer(o: Outcome) returns (err: bool)
      modifies this
      ensures err == !Succeeds(o)
      ensures State() == StartLife(old(State()), o).(stored := old(stored) || !err)
    {
      var state := o.v.state;
      if o.v.err {
        calls, pod := calls + [StartFailed(o.podLeft)], o.podLeft;
        return true;
      }
      if o.addressErr {
        calls, pod := calls + [StartFailed(o.podLeft)], o.podLeft;
        return true;
      }
      calls, pod := calls + [Started], true;
      stopped := false;
      killed := false;
      failed := state == DeployFailed;
      completed := state == DeployCompleted;
      running := state == DeployRunning;
      stored := true;
      return false;
    }

    method ContainerStart(o: Outcome) returns (err: bool)
      requires stored
      modifies this
      ensures State() == Apply(old(State()), Start(o))
    {
      if !running && !completed {
        err := StartContainer(o);
        return;
      }
      return false;
    }

    method ContainerAttach(stream: bool, o: Outcome) returns (err: bool)
      requires stored
      modifies this
      ensures State() == Apply(old(State()), Attach(stream, o))
    {
      if !stream {
        return false;
      }
      if !running && !completed {
        err := StartContainer(o);
        return;
      }
      return false;
    }

    /** The first step of a restart: the record is found, and then the handler may sleep. */
    method ContainerRestartFetch()
      requires stored
      modifies this`fetched
      ensures State() == Apply(old(State()), RestartFetch)
    {
      fetched := fetched + 1;
    }

    /** The second step; the record may have been removed meanwhile, and is stored again. */
    method ContainerRestartBegin(watchErr: bool, saveErr: bool, deleteFails: bool)
      requires fetched > 0 && channels.Valid()
      modifies this, channels, channels.stopChannels, channels.attachChannels
      ensures State() == Apply(old(State()), RestartBegin(watchErr, saveErr, deleteFails))
      ensures channels.Valid() && channels.registered == old(channels.registered)
      ensures channels.stopChannels == [] && channels.attachChannels == []
      ensures forall c :: c in old(channels.stopChannels) + old(channels.attachChannels) ==> c.Signalled()
    {
      BackendDelete(deleteFails);
      SignalAll();
      SaveStopped(watchErr, saveErr);
    }

    /** Marks the record stopped and saves it; without an error the restart then waits. */
    method SaveStopped(watchErr: bool, saveErr: bool)
      requires fetched > 0
      modifies this
      ensures calls == old(calls) && pod == old(pod)
      ensures State() == BeginRestart(old(State()), watchErr, saveErr, false).(calls := calls, pod := pod)
    {
      fetched := fetched - 1;
      running := false;
      completed := false;
      stopped := true;
      if saveErr {
        return;
      }
      stored := true;
      if watchErr {
        return;
      }
      restarts := restarts + 1;
    }

    method ContainerRestartEnd(o: Outcome) returns (err: bool)
      requires restarts > 0
      modifies this
      ensures State() == Apply(old(State()), RestartEnd(o))
    {
      restarts := restarts - 1;
      err := StartContainer(o);
    }

    method ContainerStop(deleteFails: bool)
      requires stored && channels.Valid()
      modifies this, channels, channels.stopChannels, channels.attachChannels
      ensures State() == Apply(old(State()), Stop(deleteFails))
      ensures channels.Valid() && channels.registered == old(channels.registered)
      ensures channels.stopChannels == [] && channels.attachChannels == []
      ensures forall c :: c in old(channels.stopChannels) + old(channels.attachChannels) ==> c.Signalled()
    {
      SignalAll();
      if !stopped && !killed {
        BackendDelete(deleteFails);
      }
      running := false;
      completed := false;
      stopped := true;
    }

    method ContainerKill(signal: string, deleteFails: bool)
      requires stored && channels.Valid()
      modifies this, channels, channels.stopChannels, channels.attachChannels
      ensures State() == Apply(old(State()), Kill(signal, deleteFails))
      ensures channels.Valid()
      ensures channels.registered == old(channels.registered)
      ensures Accepted(signal) ==> channels.stopChannels == [] && channels.attachChannels == []
      ensures Accepted(signal) ==>
                forall c :: c in old(channels.stopChannels) + old(channels.attachChannels) ==> c.Signalled()
      ensures !Accepted(signal) ==>
                channels.stopChannels == old(channels.stopChannels) &&
                  channels.attachChannels == old(channels.attachChannels)
    {
      var lower := Text.Lower(signal);
      if lower != "" && lower !in SIGNALS {
        return;
      }
      SignalAll();
      if !stopped && !killed {
        BackendDelete(deleteFails);
      }
      killed := true;
      running := false;
      completed := false;
    }

    method UpdateContainerStatus(allowed: bool, v: StatusVerdict)
      requires stored
      modifies this
      ensures State() == Apply(old(State()), Refresh(allowed, v))
    {
      if completed {
        return;
      }
      if !allowed {
        return;
      }
      if v.err {
        failed := true;
      }
      if v.state == DeployCompleted {
        completed := true;
        running := false;
      }
    }

    method ContainerDelete(dbErr: bool, deleteFails: bool)
      requires stored && channels.Valid()
      modifies this, channels, channels.stopChannels, channels.attachChannels
      ensures State() == Apply(old(State()), Delete(dbErr, deleteFails))
      ensures channels.Valid() && channels.registered == old(channels.registered)
      ensures channels.stopChannels == [] && channels.attachChannels == []
      ensures forall c :: c in old(channels.stopChannels) + old(channels.attachChannels) ==> c.Signalled()
    {
      SignalAll();
      if !stopped && !killed {
        BackendDelete(deleteFails);
      }
      if dbErr {
        return;
      }
      stored := false;
    }
  }
}
