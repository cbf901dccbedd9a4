/**
 The session manager itself. The holder of the transition lock runs one of its operations
 from end to end; `others` says what other threads do at each point where they can come in
 between: raise the shutdown flag, stop a session, or do a session's own work.
 */
module Manager {
  import opened Common
  import opened Runs
  import opened SessionProtocol

  /** What needs no transition lock. */
  datatype Outside = Flag | StopPart(part: nat) | WorkPart(part: nat)

  /** Why a start is refused. */
  datatype Refusal = ShuttingDown | RunActive | StillStopping

  /** What the manager is called for. */
  datatype Call =
    | CallObserve(target: Target, startFails: bool, others: nat -> seq<Outside>)
    | CallRun(kind: Kind, startFails: bool, others: nat -> seq<Outside>)
    | CallReturn(watcher: nat, startFails: bool, others: nat -> seq<Outside>)
    | CallShutdown(others: nat -> seq<Outside>)
    | Meanwhile(steps: seq<Outside>)

  // ---- what reachable states are like ----

  ghost predicate Reachable(s: State) {
    Reaches(Init(), Step, s)
  }

  lemma ReachableIsSafe(s: State)
    requires Reachable(s)
    ensures Inv(s)
  {
    var states: seq<State>, events: seq<Event> :| IsRun(Init(), Step, states, events) && states[|events|] == s;
    RunIsSafe(states, events, |events|);
  }

  lemma Moves(s: State, e: Event)
    requires Reachable(s) && Enabled(s, e)
    ensures Reachable(Apply(s, e))
  {
    ReachesNext(Init(), Step, s, e, Apply(s, e));
  }

  lemma NothingActiveAtStart(s: State)
    requires Reachable(s) && (s.busy.Starting? || s.busy.Returning?)
    ensures forall i :: 0 <= i < |s.parts| ==> !s.parts[i].Active()
    ensures !s.closed
  {
    ReachableIsSafe(s);
  }

  /** A start remembers only an observation that is installed, and then no return is pending. */
  lemma StoppedIsInstalled(s: State)
    requires Reachable(s) && s.busy.Starting? && s.busy.stopped.Some?
    ensures s.busy.stopped == s.observer && s.observer.value < |s.parts| && s.pending.None?
    ensures s.parts[s.observer.value].role.Observing?
  {
    ReachableIsSafe(s);
  }

  lemma ReturningIsPending(s: State)
    requires Reachable(s) && s.busy.Returning?
    ensures s.busy.watcher < |s.watchers| && s.pending.Some?
  {
    ReachableIsSafe(s);
  }

  lemma ClosedIsShut(s: State)
    requires Reachable(s)
    ensures s.closed ==> s.shutdown && s.pending.None?
    ensures s.busy.Closing? ==> s.closed
    ensures s.closed && (s.busy.Closing? ==> s.busy.rest == []) ==>
      forall i :: 0 <= i < |s.parts| && s.parts[i].Active() ==> s.parts[i].phase == Stopping
  {
    ReachableIsSafe(s);
  }

  lemma OneActive(s: State)
    requires Reachable(s)
    ensures forall a, b :: 0 <= a < |s.parts| && 0 <= b < |s.parts| && s.parts[a].Active() && s.parts[b].Active() ==>
      a == b
    ensures forall a :: 0 <= a < |s.parts| && s.parts[a].Active() ==> Some(a) in {s.observer, s.churn, s.capture}
  {
    ReachableIsSafe(s);
  }

  // ---- what happens outside the lock, and what a call comes to ----

  function AfterOne(s: State, step: Outside): State {
    match step
    case Flag => s.(shutdown := true)
    case StopPart(part) => s.(parts := s.StopPart(part))
    case WorkPart(part) => if part < |s.parts| then s.(parts := s.parts[part := s.parts[part].Progress()]) else s
  }

  function AfterOutside(s: State, steps: seq<Outside>): State {
    if steps == [] then s else AfterOne(AfterOutside(s, steps[..|steps| - 1]), steps[|steps| - 1])
  }

  /** Something started last, in this role, or there is a reason why it did not. */
  ghost predicate StartedOrWhy(s: State, t: State, role: Role, startFails: bool) {
    (|t.parts| == |s.parts| + 1 && t.parts[|s.parts|].role == role) || startFails || t.shutdown ||
    t.ActiveAt(t.churn) || t.ActiveAt(t.capture) ||
    (t.ActiveAt(t.observer) && t.parts[t.observer.value].phase == Stopping)
  }

  /** What a call has come to when it is answered. */
  ghost predicate Served(s: State, call: Call, t: State) {
    match call
    case CallObserve(target, startFails, _) => StartedOrWhy(s, t, Observing(target), startFails)
    case CallRun(kind, startFails, _) => StartedOrWhy(s, t, Running(kind), startFails)
    case CallReturn(w, _, _) => Enabled(s, WatcherEnters(w)) ==> w < |t.watchers| && t.watchers[w].watch != Waiting
    case CallShutdown(_) => t.closed && t.pending.None?
    case Meanwhile(steps) => t == AfterOutside(s, steps)
  }

  class SessionManager {
    var observer: Option<nat>
    var churn: Option<nat>
    var capture: Option<nat>
    var generation: nat
    var resumeTarget: Option<Target>
    var watchers: seq<Watcher>
    var shutdown: bool

    /** The sessions, and how far the holder of the transition lock has come. */
    var parts: seq<Part>
    var busy: Busy

    ghost var closed: bool
    ghost var claims: seq<nat>
    ghost var settled: seq<Settlement>

    ghost function View(): State
      reads this
    {
      State(parts, observer, churn, capture, generation, resumeTarget, watchers, shutdown, closed, busy, claims,
            settled)
    }

    /** The manager is in a state that some run of the protocol reaches. */
    ghost predicate Valid()
      reads this
    {
      Reachable(View())
    }

    /** At most one of all sessions ever started is active, and it is installed. */
    ghost predicate OneMode()
      reads this
    {
      (forall a, b :: 0 <= a < |parts| && 0 <= b < |parts| && parts[a].Active() && parts[b].Active() ==> a == b) &&
      (forall a :: 0 <= a < |parts| && parts[a].Active() ==> Some(a) in {observer, churn, capture})
    }

    constructor ()
      ensures Valid() && View() == Init()
    {
      observer, churn, capture, generation, resumeTarget := None, None, None, 0, None;
      watchers, shutdown, parts, busy := [], false, [], Free;
      closed, claims, settled := false, [], [];
      new;
      ReachesInit(Init(), Step);
    }

    predicate IsActive(part: Option<nat>)
      reads this
    {
      part.Some? && part.value < |parts| && parts[part.value].Active()
    }

    // ---- other threads ----

    method RaiseFlag()
      requires Valid()
      modifies this`shutdown
      ensures Valid() && shutdown
    {
      Moves(View(), Event.RaiseFlag);
      shutdown := true;
    }

    /** A user stops a session that is, or was, installed. */
    method UserStop(part: nat)
      requires Valid() && part < |parts|
      modifies this`parts
      ensures Valid() && parts == old(parts)[part := old(parts)[part].Stop()]
    {
      Moves(View(), Event.UserStop(part));
      parts := parts[part := parts[part].Stop()];
    }

    /** A session's own threads. */
    method Work(part: nat)
      requires Valid() && part < |parts|
      modifies this`parts
      ensures Valid() && parts == old(parts)[part := old(parts)[part].Progress()]
    {
      Moves(View(), Event.Work(part));
      parts := parts[part := parts[part].Progress()];
    }

    /** Anything other threads do without the lock, step by step: no session starts, and none becomes active again. */
    method Happen(steps: seq<Outside>)
      requires Valid()
      modifies this`parts, this`shutdown
      ensures Valid() && PhasesMove(old(parts), parts) && (old(shutdown) ==> shutdown)
      ensures View() == AfterOutside(old(View()), steps)
    {
      for i := 0 to |steps|
        invariant Valid() && PhasesMove(old(parts), parts) && (old(shutdown) ==> shutdown)
        invariant View() == AfterOutside(old(View()), steps[..i])
      {
        assert steps[..i + 1][..i] == steps[..i];
        match steps[i] {
          case Flag => RaiseFlag();
          case StopPart(part) =>
            if part < |parts| {
              UserStop(part);
            }
          case WorkPart(part) =>
            if part < |parts| {
              Work(part);
            }
        }
      }
      assert steps[..|steps|] == steps;
    }

    /** The same, as far as the operations rely on it. */
    method Others(steps: seq<Outside>)
      requires Valid()
      modifies this`parts, this`shutdown
      ensures Valid() && PhasesMove(old(parts), parts) && (old(shutdown) ==> shutdown)
    {
      Happen(steps);
    }

    // ---- the blocks of the operations: each makes one step of the protocol ----

    method Enter(op: Op) returns (ok: bool)
      requires Valid() && busy.Free?
      modifies this`busy
      ensures Valid() && View() == AfterBegin(old(View()), op) && ok == !shutdown
    {
      Moves(View(), Begin(op));
      ok := !shutdown;
      if ok {
        busy := Entered(op);
      }
    }

    method RefuseWhileRunning() returns (ok: bool)
      requires Valid() && busy.Entered?
      modifies this`busy
      ensures Valid() && View() == AfterCheckRuns(old(View())) && ok == busy.Cleared?
    {
      Moves(View(), CheckRuns);
      ok := !IsActive(churn) && !IsActive(capture);
      busy := if ok then Cleared(busy.op) else Free;
    }

    method StopObservation()
      requires Valid() && busy.Cleared?
      modifies this`busy, this`parts
      ensures Valid() && View() == AfterHaltObserver(old(View())) && PhasesMove(old(parts), parts)
    {
      Moves(View(), HaltObserver);
      if IsActive(observer) {
        parts := parts[observer.value := parts[observer.value].Stop()];
        busy := Halting(busy.op);
      } else {
        busy := Ready(busy.op, None);
      }
    }

    method AwaitObservation() returns (ok: bool)
      requires Valid() && busy.Halting?
      modifies this`busy
      ensures Valid() && View() == AfterAwaitObserver(old(View())) && ok == busy.Ready?
      ensures !ok ==> IsActive(observer)
    {
      Moves(View(), AwaitObserver);
      ok := !IsActive(observer);
      busy := if ok then Ready(busy.op, if busy.op.Automate? then observer else None) else Free;
    }

    method RaiseIfShutdown() returns (ok: bool)
      requires Valid() && busy.Ready?
      modifies this`busy
      ensures Valid() && View() == AfterRecheck(old(View())) && ok == !shutdown
    {
      Moves(View(), Recheck);
      ok := !shutdown;
      busy := if ok then Starting(busy.op, busy.stopped) else Free;
    }

    method InstallObserver(startFails: bool)
      requires Valid() && busy.Starting? && busy.op.Observe?
      modifies this
      ensures Valid() && View() == AfterStartObserver(old(View()), !startFails)
    {
      Moves(View(), StartObserver(!startFails));
      if !startFails {
        settled := View().Settle(Dropped);
        observer := Some(|parts|);
        parts := parts + [Part(Observing(busy.op.target), Live)];
        generation := generation + 1;
        resumeTarget := None;
      }
      busy := Free;
    }

    method InstallRun(startFails: bool)
      requires Valid() && busy.Starting? && busy.op.Automate?
      modifies this
      ensures Valid() && View() == AfterStartRun(old(View()), !startFails)
    {
      Moves(View(), Event.StartRun(!startFails));
      if startFails {
        busy := Free;
      } else {
        if busy.stopped.Some? {
          StoppedIsInstalled(View());
        }
        LeaveObservation(busy.stopped);
        PlaceRun(busy.op.kind);
      }
    }

    method LeaveObservation(stopped: Option<nat>)
      requires stopped.Some? ==> stopped.value < |parts| && parts[stopped.value].role.Observing?
      modifies this`observer, this`resumeTarget, this`claims
      ensures View() == ObservationLeft(old(View()), stopped)
    {
      observer := None;
      if stopped.Some? {
        resumeTarget := Some(parts[stopped.value].role.target);
        claims := claims + [stopped.value];
      }
    }

    method PlaceRun(kind: Kind)
      modifies this`parts, this`churn, this`capture, this`generation, this`busy
      ensures View() == RunPlaced(old(View()), kind)
    {
      generation := generation + 1;
      if kind == Churn {
        churn := Some(|parts|);
      } else {
        capture := Some(|parts|);
      }
      busy := if resumeTarget.Some? then Spawning(kind, |parts|) else Free;
      parts := parts + [Part(Running(kind), Live)];
    }

    method WatchAndResume()
      requires Valid() && busy.Spawning?
      modifies this`watchers, this`busy
      ensures Valid() && View() == AfterSpawn(old(View()))
    {
      Moves(View(), Spawn);
      watchers := watchers + [Watcher(busy.kind, busy.runner, generation, Waiting)];
      busy := Free;
    }

    method CheckReturn(w: nat) returns (ok: bool)
      requires Valid() && Enabled(View(), WatcherEnters(w))
      modifies this`watchers, this`busy
      ensures Valid() && View() == AfterWatcherEnters(old(View()), w) && ok == old(View().MayReturn(watchers[w]))
    {
      Moves(View(), WatcherEnters(w));
      var watcher := watchers[w];
      var current := if watcher.kind == Churn then churn else capture;
      if shutdown || generation != watcher.generation || current != Some(watcher.runner) || observer.Some? ||
         resumeTarget.None? {
        watchers := watchers[w := watcher.(watch := Refused)];
        return false;
      }
      busy := Returning(w);
      return true;
    }

    method InstallReturned(startFails: bool)
      requires Valid() && busy.Returning? && busy.watcher < |watchers| && resumeTarget.Some?
      modifies this
      ensures Valid() && View() == AfterReturn(old(View()), !startFails)
    {
      Moves(View(), Return(!startFails));
      var w := busy.watcher;
      if startFails {
        watchers := watchers[w := watchers[w].(watch := Failed)];
      } else {
        settled := View().Settle(ReturnedAs(|parts|));
        observer := Some(|parts|);
        parts := parts + [Part(Observing(resumeTarget.value), Live)];
        resumeTarget := None;
        watchers := watchers[w := watchers[w].(watch := Resumed)];
      }
      busy := Free;
    }

    method SnapshotForShutdown()
      requires Valid() && shutdown && busy.Free?
      modifies this
      ensures Valid() && View() == AfterSnapshot(old(View()))
    {
      Moves(View(), Snapshot);
      settled := View().Settle(Dropped);
      generation := generation + 1;
      resumeTarget := None;
      closed := true;
      busy := Closing(Ids(observer) + Ids(churn) + Ids(capture));
    }

    method StopNextInstalled()
      requires Valid() && busy.Closing?
      modifies this`parts, this`busy
      ensures Valid() && View() == AfterStopNext(old(View()))
    {
      Moves(View(), StopNext);
      if busy.rest == [] {
        busy := Free;
      } else {
        var next := busy.rest[0];
        if next < |parts| {
          parts := parts[next := parts[next].Stop()];
        }
        busy := Closing(busy.rest[1..]);
      }
    }

    // ---- the operations ----

    /** The lock is taken, and neither automated run is active. */
    method ClearRuns(op: Op, others: nat -> seq<Outside>) returns (refusal: Option<Refusal>)
      requires Valid() && busy.Free?
      modifies this`busy, this`parts, this`shutdown
      ensures Valid() && PhasesMove(old(parts), parts) && (old(shutdown) ==> shutdown)
      ensures old(shutdown) ==> refusal == Some(ShuttingDown)
      ensures if refusal.None? then busy == Cleared(op) else busy.Free? && refusal.value != StillStopping
      ensures refusal == Some(ShuttingDown) ==> shutdown
      ensures refusal == Some(RunActive) ==> IsActive(churn) || IsActive(capture)
    {
      var ok := Enter(op);
      if !ok {
        return Some(ShuttingDown);
      }
      Others(others(0));
      ok := RefuseWhileRunning();
      return if ok then None else Some(RunActive);
    }

    /** The observation is told to stop and has stopped, and the server is still not shutting down. */
    method ClearObservation(others: nat -> seq<Outside>) returns (refusal: Option<Refusal>)
      requires Valid() && busy.Cleared?
      modifies this`busy, this`parts, this`shutdown
      ensures Valid() && PhasesMove(old(parts), parts) && (old(shutdown) ==> shutdown)
      ensures refusal.Some? ==> busy.Free? && refusal.value != RunActive
      ensures refusal == Some(ShuttingDown) ==> shutdown
      ensures refusal == Some(StillStopping) ==> IsActive(observer) && parts[observer.value].phase == Stopping
      ensures refusal.None? ==> busy.Starting? && busy.op == old(busy.op)
      ensures refusal.None? && busy.stopped.Some? ==> old(IsActive(observer))
    {
      StopObservation();
      if busy.Halting? {
        Others(others(2));
        var stopped := AwaitObservation();
        if !stopped {
          return Some(StillStopping);
        }
      }
      Others(others(3));
      var ok := RaiseIfShutdown();
      return if ok then None else Some(ShuttingDown);
    }

    /**
     The common beginning of every start: nothing is active when it succeeds, and a
     refusal names its cause. Only sessions' phases and the shutdown flag may have moved.
     */
    method Prepare(op: Op, others: nat -> seq<Outside>) returns (refusal: Option<Refusal>)
      requires Valid() && busy.Free?
      modifies this`busy, this`parts, this`shutdown
      ensures Valid() && PhasesMove(old(parts), parts) && (old(shutdown) ==> shutdown)
      ensures old(shutdown) ==> refusal == Some(ShuttingDown)
      ensures refusal.Some? ==> busy.Free?
      ensures refusal == Some(ShuttingDown) ==> shutdown
      ensures refusal == Some(RunActive) ==> IsActive(churn) || IsActive(capture)
      ensures refusal == Some(StillStopping) ==> IsActive(observer) && parts[observer.value].phase == Stopping
      ensures refusal.None? ==> busy.Starting? && busy.op == op && forall i :: 0 <= i < |parts| ==> !parts[i].Active()
      ensures refusal.None? && busy.stopped.Some? ==> busy.stopped == observer && old(IsActive(observer))
    {
      refusal := ClearRuns(op, others);
      if refusal.Some? {
        return;
      }
      Others(others(1));
      refusal := ClearObservation(others);
      if refusal.Some? {
        return;
      }
      Others(others(4));
      NothingActiveAtStart(View());
      if busy.stopped.Some? {
        StoppedIsInstalled(View());
      }
    }

    /** The manager's own fields are as they were, and no session has started. */
    twostate predicate Unmoved()
      reads this
    {
      observer == old(observer) && churn == old(churn) && capture == old(capture) && generation == old(generation) &&
      resumeTarget == old(resumeTarget) && watchers == old(watchers) && closed == old(closed) &&
      claims == old(claims) && settled == old(settled) && PhasesMove(old(parts), parts)
    }

    /** One session has started; every earlier one is over. */
    twostate predicate Started(role: Role)
      reads this
    {
      |parts| == |old(parts)| + 1 && parts[|old(parts)|].role == role &&
      PhasesMove(old(parts), parts[..|old(parts)|]) && closed == old(closed) && !closed &&
      (forall i :: 0 <= i < |old(parts)| ==> !parts[i].Active())
    }

    /**
     `_start_observation`: a user's observation replaces whatever was observing, and nothing is
     to return any more.
     */
    method StartObservation(target: Target, startFails: bool, others: nat -> seq<Outside>) returns (started: bool)
      requires Valid() && busy.Free?
      modifies this
      ensures Valid() && busy.Free? && (old(shutdown) ==> shutdown)
      ensures started ==> Started(Observing(target)) && observer == Some(|old(parts)|) && resumeTarget.None?
      ensures started ==> generation == old(generation) + 1
      ensures started ==> churn == old(churn) && capture == old(capture) && watchers == old(watchers)
      ensures !started ==> Unmoved()
      ensures old(shutdown) || startFails ==> !started
      ensures !started ==>
        startFails || shutdown || IsActive(churn) || IsActive(capture) ||
        (IsActive(observer) && parts[observer.value].phase == Stopping)
    {
      var refusal := Prepare(Observe(target), others);
      if refusal.Some? {
        assert refusal.value == ShuttingDown || refusal.value == RunActive || refusal.value == StillStopping;
        return false;
      }
      NothingActiveAtStart(View());
      InstallObserver(startFails);
      started := !startFails;
    }

    /**
     `_start_churn` and `_start_capture`: the observation that was stopped for the run is to
     return, or else the one that was to return already; a watcher of this run sees to it.
     */
    method StartRun(kind: Kind, startFails: bool, others: nat -> seq<Outside>) returns (started: bool)
      requires Valid() && busy.Free?
      modifies this
      ensures Valid() && busy.Free? && (old(shutdown) ==> shutdown)
      ensures started ==> Started(Running(kind)) && observer.None? && generation == old(generation) + 1
      ensures started ==> churn == (if kind == Churn then Some(|old(parts)|) else old(churn))
      ensures started ==> capture == (if kind == Capture then Some(|old(parts)|) else old(capture))
      ensures started && claims == old(claims) ==> resumeTarget == old(resumeTarget)
      ensures started && claims != old(claims) ==> old(IsActive(observer)) && old(resumeTarget).None?
      ensures started && claims != old(claims) ==> claims == old(claims) + [old(observer).value] && resumeTarget.Some?
      ensures started && claims != old(claims) ==>
        old(parts)[old(observer).value].role == Observing(resumeTarget.value)
      ensures started && resumeTarget.None? ==> watchers == old(watchers)
      ensures started && resumeTarget.Some? ==>
        watchers == old(watchers) + [Watcher(kind, |old(parts)|, generation, Waiting)]
      ensures !started ==> Unmoved()
      ensures old(shutdown) || startFails ==> !started
      ensures !started ==>
        startFails || shutdown || IsActive(churn) || IsActive(capture) ||
        (IsActive(observer) && parts[observer.value].phase == Stopping)
    {
      var refusal := Prepare(Automate(kind), others);
      if refusal.Some? {
        assert refusal.value == ShuttingDown || refusal.value == RunActive || refusal.value == StillStopping;
        return false;
      }
      InstallAndWatch(startFails, others);
      started := !startFails;
    }

    /** The rest of a run's start: what is installed, and the watcher. */
    method InstallAndWatch(startFails: bool, others: nat -> seq<Outside>)
      requires Valid() && busy.Starting? && busy.op.Automate?
      modifies this
      ensures Valid() && busy.Free? && (old(shutdown) ==> shutdown) && closed == old(closed) && settled == old(settled)
      ensures startFails ==> Unmoved()
      ensures !startFails ==> Started(Running(old(busy.op.kind))) && observer.None? && generation == old(generation) + 1
      ensures !startFails ==> churn == (if old(busy.op.kind) == Churn then Some(|old(parts)|) else old(churn))
      ensures !startFails ==> capture == (if old(busy.op.kind) == Capture then Some(|old(parts)|) else old(capture))
      ensures !startFails && old(busy.stopped).None? ==> claims == old(claims) && resumeTarget == old(resumeTarget)
      ensures old(busy.stopped).Some? ==> old(busy.stopped) == old(observer) && old(resumeTarget).None?
      ensures !startFails && old(busy.stopped).Some? ==>
        claims == old(claims) + [old(observer).value] && resumeTarget.Some? && old(observer).value < |old(parts)| &&
        old(parts)[old(observer).value].role == Observing(resumeTarget.value)
      ensures !startFails && resumeTarget.None? ==> watchers == old(watchers)
      ensures !startFails && resumeTarget.Some? ==>
        watchers == old(watchers) + [Watcher(old(busy.op.kind), |old(parts)|, generation, Waiting)]
    {
      NothingActiveAtStart(View());
      if busy.stopped.Some? {
        StoppedIsInstalled(View());
      }
      InstallRun(startFails);
      if busy.Spawning? {
        Others(others(5));
        WatchAndResume();
      }
    }

    /**
     `_resume_observation_after`, once the wait is over: the observation comes back exactly
     if this is the current watcher, its run is the current one, and the start succeeds.
     */
    method ResumeObservation(w: nat, startFails: bool, others: nat -> seq<Outside>) returns (returned: bool)
      requires Valid() && Enabled(View(), WatcherEnters(w))
      modifies this
      ensures Valid() && busy.Free? && (old(shutdown) ==> shutdown)
      ensures returned <==>
        !startFails && !old(shutdown) && old(generation == watchers[w].generation) &&
        old((if watchers[w].kind == Churn then churn else capture) == Some(watchers[w].runner)) &&
        old(observer.None? && resumeTarget.Some?)
      ensures returned ==> Started(Observing(old(resumeTarget).value)) && observer == Some(|old(parts)|)
      ensures returned ==> resumeTarget.None? && old(watchers[w]).generation == generation == old(generation)
      ensures !returned ==>
        observer == old(observer) && resumeTarget == old(resumeTarget) && generation == old(generation)
      ensures !returned ==> PhasesMove(old(parts), parts) && closed == old(closed)
      ensures churn == old(churn) && capture == old(capture) && claims == old(claims)
      ensures |watchers| == |old(watchers)| && watchers[w].watch != Waiting
    {
      var ok := CheckReturn(w);
      if !ok {
        return false;
      }
      Others(others(0));
      NothingActiveAtStart(View());
      ReturningIsPending(View());
      InstallReturned(startFails);
      returned := !startFails;
    }

    /** `shutdown`: afterwards nothing is pending, and whatever is still active was asked to stop. */
    method Shutdown(others: nat -> seq<Outside>)
      requires Valid() && busy.Free?
      modifies this
      ensures Valid() && busy.Free? && shutdown && closed && resumeTarget.None?
      ensures generation == old(generation) + 1 && watchers == old(watchers)
      ensures |parts| == |old(parts)| && observer == old(observer) && churn == old(churn) && capture == old(capture)
      ensures forall i :: 0 <= i < |parts| && parts[i].Active() ==> parts[i].phase == Stopping
    {
      RaiseFlag();
      SnapshotForShutdown();
      StopInstalled(others);
      ClosedIsShut(View());
    }

    /** The stops of `shutdown`, one session after the other. */
    method StopInstalled(others: nat -> seq<Outside>)
      requires Valid() && busy.Closing?
      modifies this`parts, this`busy, this`shutdown
      ensures Valid() && busy.Free? && |parts| == |old(parts)|
    {
      var n := 0;
      while busy.rest != []
        invariant Valid() && busy.Closing? && |parts| == |old(parts)|
        decreases |busy.rest|
      {
        StopNextInstalled();
        Others(others(n));
        n := n + 1;
      }
      StopNextInstalled();
    }

    // ---- any number of operations ----

    /** One operation, or something other threads do while nobody holds the lock. */
    method Serve(call: Call)
      requires Valid() && busy.Free?
      modifies this
      ensures Valid() && busy.Free? && Served(old(View()), call, View())
      ensures old(closed) ==> closed && |parts| == |old(parts)|
    {
      ClosedIsShut(View());
      match call {
        case CallObserve(target, startFails, others) =>
          var _ := StartObservation(target, startFails, others);
        case CallRun(kind, startFails, others) =>
          var _ := StartRun(kind, startFails, others);
        case CallReturn(w, startFails, others) =>
          if w < |watchers| && watchers[w].watch == Waiting && watchers[w].runner < |parts| &&
             (shutdown || parts[watchers[w].runner].phase == Finished) {
            var _ := ResumeObservation(w, startFails, others);
          }
        case CallShutdown(others) => Shutdown(others);
        case Meanwhile(steps) => Happen(steps);
      }
    }

    /**
     Any sequence of operations of any users, watchers and the server, with anything done
     in between by other threads: each is served, there is one mode at a time, and nothing
     starts after a shutdown.
     */
    method ServeAll(calls: seq<Call>) returns (ghost trace: seq<State>)
      requires Valid() && busy.Free?
      modifies this
      ensures Valid() && busy.Free? && OneMode()
      ensures |trace| == |calls| + 1 && trace[0] == old(View()) && trace[|calls|] == View()
      ensures forall i :: 0 <= i < |calls| ==> Served(trace[i], calls[i], trace[i + 1])
      ensures old(closed) ==> |parts| == |old(parts)| && resumeTarget.None?
      ensures closed ==> forall i :: 0 <= i < |parts| && parts[i].Active() ==> parts[i].phase == Stopping
    {
      trace := [View()];
      for i := 0 to |calls|
        invariant Valid() && busy.Free? && (old(closed) ==> closed && |parts| == |old(parts)|)
        invariant |trace| == i + 1 && trace[0] == old(View()) && trace[i] == View()
        invariant forall k :: 0 <= k < i ==> Served(trace[k], calls[k], trace[k + 1])
      {
        Serve(calls[i]);
        trace := trace + [View()];
      }
      OneActive(View());
      ClosedIsShut(View());
    }
  }
}
