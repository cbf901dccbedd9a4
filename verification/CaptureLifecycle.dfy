/**
 The life of a capture run as interleaved atomic steps of its worker, the printer source
 beside it and any number of other threads.
 */
module CaptureLifecycle {
  import opened Common
  import opened Phases
  import opened Runs

  /** How far the worker has come. */
  datatype Worker =
    | Unborn
    | Polling
    | Ended(outcome: Phase)   // the polling is over
    | Appending               // the terminal state is set, its record not yet written
    | WriteFailed
    | Recorded                // about to look whether everything is complete
    | Dead

  datatype State = State(
    phase: Phase,
    stopCalled: bool,
    cancel: bool,
    worker: Worker,
    permit: bool,
    source: bool,
    attempts: nat,
    finished: bool)

  function Init(): State {
    State(Idle, false, false, Unborn, false, false, 0, false)
  }

  datatype Event =
    | Start(source: bool)
    | StopCall
    | RaiseCancel
    | Permit(held: bool)
    | SourceEnds
    | EndPolling(outcome: Phase)
    | Complete
    | Append(ok: bool)
    | MarkFailed
    | Finish(who: By)

  predicate Enabled(s: State, e: Event) {
    match e
    case Start(_) => s.phase == Idle && s.worker == Unborn
    case StopCall => true
    case RaiseCancel => s.stopCalled
    case Permit(_) => s.worker == Polling
    case SourceEnds => s.source
    case EndPolling(outcome) => s.worker == Polling && !s.permit && outcome.Terminal()
    case Complete => s.worker.Ended?
    case Append(_) => s.worker == Appending
    case MarkFailed => s.worker == WriteFailed
    case Finish(who) => who == TheWorker ==> s.worker == Recorded
  }

  function AfterStop(s: State): State {
    if s.phase.Terminal() || s.phase == Idle then s else s.(phase := Stopping, stopCalled := true)
  }

  /** `_complete`, its first block: the terminal state; the cancel flag has the last word. */
  function AfterComplete(s: State): State
    requires s.worker.Ended?
  {
    s.(phase := if s.cancel then Cancelled else s.worker.outcome, worker := Appending)
  }

  function AfterAppend(s: State, ok: bool): State {
    s.(attempts := s.attempts + 1, worker := if ok then Recorded else WriteFailed)
  }

  /** `_finish_if_complete`. */
  function AfterFinish(s: State, who: By): State {
    var wait := (who == Another && s.worker !in {Unborn, Dead}) || s.permit || s.source || s.phase == Stopping;
    s.(
      finished := s.finished || (!wait && s.phase.Terminal()),
      worker := if who == TheWorker then Dead else s.worker)
  }

  function Apply(s: State, e: Event): State
    requires Enabled(s, e)
  {
    match e
    case Start(source) => s.(phase := Running, worker := Polling, source := source)
    case StopCall => AfterStop(s)
    case RaiseCancel => s.(cancel := true)
    case Permit(held) => s.(permit := held)
    case SourceEnds => s.(source := false)
    case EndPolling(outcome) => s.(worker := Ended(outcome))
    case Complete => AfterComplete(s)
    case Append(ok) => AfterAppend(s, ok)
    case MarkFailed => s.(phase := Failed, worker := Recorded)
    case Finish(who) => AfterFinish(s, who)
  }

  ghost predicate Step(s: State, e: Event, t: State) {
    Enabled(s, e) && t == Apply(s, e)
  }

  // ---- what every step keeps ----

  predicate Closing(w: Worker) {
    w in {Appending, WriteFailed, Recorded, Dead}
  }

  ghost predicate Inv(s: State) {
    (s.phase == Idle <==> s.worker == Unborn) && (s.phase.Terminal() <==> Closing(s.worker)) &&
    (s.worker.Ended? ==> s.worker.outcome.Terminal()) && (s.permit ==> s.worker == Polling) &&
    (s.worker == Unborn ==> !s.source) &&
    s.attempts == (if s.worker in {WriteFailed, Recorded, Dead} then 1 else 0) &&
    (s.finished ==> Clean(s))
  }

  /** No permit is held, the printer source and the worker are dead. */
  ghost predicate Clean(s: State) {
    !s.permit && !s.source && s.worker == Dead
  }

  lemma InvPreserved(s: State, e: Event)
    requires Inv(s) && Enabled(s, e)
    ensures Inv(Apply(s, e))
  {
  }

  // ---- whole runs ----

  lemma RunIsSafe(states: seq<State>, events: seq<Event>, i: nat)
    requires IsRun(Init(), Step, states, events) && i < |states|
    ensures Inv(states[i])
  {
    forall s, e, t | Inv(s) && Step(s, e, t)
      ensures Inv(t)
    {
      InvPreserved(s, e);
    }
    Always(Init(), Step, Inv, states, events, i);
  }

  /** A terminal state never gives way to another one, except that a failed write of its record makes it failed. */
  lemma {:induction false} TerminalIsAbsorbing(states: seq<State>, events: seq<Event>, i: nat, j: nat)
    requires IsRun(Init(), Step, states, events) && i <= j < |states| && states[i].phase.Terminal()
    ensures states[j].phase.Terminal()
    ensures states[j].phase == states[i].phase ||
            (states[j].phase == Failed && exists k :: i <= k < j && events[k] == MarkFailed)
    decreases j
  {
    if i == j {
    } else {
      TerminalIsAbsorbing(states, events, i, j - 1);
      RunIsSafe(states, events, j - 1);
      assert StepAt(Step, states, events, j - 1);
      if states[j].phase != states[j - 1].phase {
        assert events[j - 1] == MarkFailed;
      }
    }
  }

  /**
   A capture that reports finished is over and clean, its terminal record was attempted once,
   and nothing more happens.
   */
  lemma {:induction false} FinishedIsFinal(states: seq<State>, events: seq<Event>, i: nat, j: nat)
    requires IsRun(Init(), Step, states, events) && i <= j < |states| && states[i].finished
    ensures states[j].finished && Clean(states[j]) && states[j].phase == states[i].phase
    ensures states[j].phase.Terminal() && states[j].attempts == 1
    decreases j
  {
    RunIsSafe(states, events, j);
    if i == j {
    } else {
      FinishedIsFinal(states, events, i, j - 1);
      assert StepAt(Step, states, events, j - 1);
    }
  }

  /** Once the worker is dead, anyone who looks after the source has ended sees a finished run. */
  lemma FinishIsSeen(states: seq<State>, events: seq<Event>, i: nat)
    requires IsRun(Init(), Step, states, events) && i < |states| && states[i].worker == Dead
    ensures Apply(states[i], Finish(Another)).finished <==> states[i].finished || !states[i].source
  {
    RunIsSafe(states, events, i);
  }

  /** Whatever happens next, the run ends as cancelled, or as failed because that could not be recorded. */
  ghost predicate Cancelling(s: State) {
    s.cancel && (s.phase.Terminal() ==> s.phase in {Cancelled, Failed})
  }

  /** Nothing is taken back. */
  ghost predicate Onward(s: State, t: State) {
    (s.stopCalled ==> t.stopCalled) && (s.cancel ==> t.cancel) && (s.finished ==> t.finished) &&
    (s.phase.Terminal() ==> t.phase.Terminal()) && s.attempts <= t.attempts && (Cancelling(s) ==> Cancelling(t))
  }

  lemma StepsGoOnward(s: State, e: Event)
    requires Inv(s) && Enabled(s, e)
    ensures Onward(s, Apply(s, e))
  {
  }

  /** A cancel flag that is up before the terminal state is set makes the run cancelled, whatever it was going to be. */
  lemma {:induction false} CancelledInTime(states: seq<State>, events: seq<Event>, i: nat, j: nat)
    requires IsRun(Init(), Step, states, events) && i <= j < |states|
    requires states[i].cancel && !states[i].phase.Terminal()
    ensures Cancelling(states[j])
    decreases j
  {
    if i == j {
    } else {
      CancelledInTime(states, events, i, j - 1);
      RunIsSafe(states, events, j - 1);
      assert StepAt(Step, states, events, j - 1);
      StepsGoOnward(states[j - 1], events[j - 1]);
    }
  }

  // ---- the runner ----

  ghost predicate Reachable(s: State) {
    Reaches(Init(), Step, s)
  }

  lemma ReachableIsSafe(s: State)
    requires Reachable(s)
    ensures Inv(s)
  {
    var states: seq<State>, events: seq<Event> :| IsRun(Init(), Step, states, events) && states[|events|] == s;
    RunIsSafe(states, events, |events|);
  }

  lemma Moves(s: State, e: Event)
    requires Reachable(s) && Enabled(s, e)
    ensures Reachable(Apply(s, e)) && Onward(s, Apply(s, e))
  {
    ReachableIsSafe(s);
    StepsGoOnward(s, e);
    ReachesNext(Init(), Step, s, e, Apply(s, e));
  }

  lemma OverIsClean(s: State)
    requires Reachable(s)
    ensures s.finished ==> s.phase.Terminal() && Clean(s) && s.attempts == 1
    ensures s.phase.Terminal() <==> Closing(s.worker)
    ensures s.worker in {Recorded, Dead} ==> s.attempts == 1
  {
    ReachableIsSafe(s);
  }

  /** A step that is none of the worker's own. */
  predicate Foreign(e: Event) {
    e == StopCall || e == RaiseCancel || e == SourceEnds || e == Finish(Another)
  }

  lemma ForeignKeepsWorker(s: State, e: Event)
    requires Inv(s) && Enabled(s, e) && Foreign(e)
    ensures Apply(s, e).worker == s.worker && Apply(s, e).attempts == s.attempts
    ensures s.phase.Terminal() ==> Apply(s, e).phase == s.phase
  {
  }

  /** A step of another thread than the worker, if it is possible now. */
  function AfterForeign(s: State, e: Event): State {
    if Enabled(s, e) && Foreign(e) then Apply(s, e) else s
  }

  function AfterAll(s: State, steps: seq<Event>): State {
    if steps == [] then s else AfterForeign(AfterAll(s, steps[..|steps| - 1]), steps[|steps| - 1])
  }

  /**
   The parts of `CaptureRunner` that decide its life. `others` says what other threads do at
   each point where they can come in between; `Others` performs whatever of it is possible.
   */
  class CaptureRunner {
    var state: Phase
    var cancel: bool
    var finished: bool

    /** The worker, the permit it holds, and the printer source. */
    var worker: Worker
    var permit: bool
    var source: bool

    var stopCalled: bool
    ghost var attempts: nat

    ghost function View(): State
      reads this
    {
      State(state, stopCalled, cancel, worker, permit, source, attempts, finished)
    }

    ghost predicate Valid()
      reads this
    {
      Reachable(View())
    }

    constructor ()
      ensures Valid() && View() == Init()
    {
      state, cancel, finished, worker, permit, source := Idle, false, false, Unborn, false, false;
      stopCalled, attempts := false, 0;
      new;
      ReachesInit(Init(), Step);
    }

    // ---- atomic blocks ----

    /** `stop`, the block under the lock. */
    method RequestStop() returns (already: bool)
      requires Valid()
      modifies this`state, this`stopCalled
      ensures Valid() && View() == AfterStop(old(View())) && already == (old(state).Terminal() || old(state) == Idle)
      ensures state == if already then old(state) else Stopping
    {
      Moves(View(), StopCall);
      already := state.Terminal() || state == Idle;
      if !already {
        state, stopCalled := Stopping, true;
      }
    }

    /** `_complete`, its first block. */
    method SetTerminal()
      requires Valid() && worker.Ended?
      modifies this`state, this`worker
      ensures Valid() && View() == AfterComplete(old(View()))
    {
      Moves(View(), Event.Complete);
      state := if cancel then Cancelled else worker.outcome;
      worker := Appending;
    }

    /** The append of the terminal record. */
    method AppendTerminal(ok: bool)
      requires Valid() && worker == Appending
      modifies this`worker, this`attempts
      ensures Valid() && View() == AfterAppend(old(View()), ok)
    {
      Moves(View(), Append(ok));
      attempts := attempts + 1;
      worker := if ok then Recorded else WriteFailed;
    }

    method FailRun()
      requires Valid() && worker == WriteFailed
      modifies this`state, this`worker
      ensures Valid() && View() == Apply(old(View()), MarkFailed)
    {
      Moves(View(), MarkFailed);
      state, worker := Failed, Recorded;
    }

    /** `_finish_if_complete`: it says over only for a clean run whose terminal record was attempted. */
    method FinishIfComplete(who: By) returns (over: bool)
      requires Valid() && Enabled(View(), Finish(who))
      modifies this`finished, this`worker
      ensures Valid() && View() == AfterFinish(old(View()), who)
      ensures over ==> finished && state.Terminal() && Clean(View()) && attempts == 1
      ensures over <==>
        state.Terminal() && !permit && !source && (who == Another ==> worker == Unborn || worker == Dead)
    {
      Moves(View(), Finish(who));
      over := false;
      var alive := worker != Unborn && worker != Dead;
      if !(alive && who == Another) && !permit && !source && state != Stopping {
        over := state.Terminal();
        finished := finished || over;
      }
      if who == TheWorker {
        worker := Dead;
      }
      OverIsClean(View());
    }

    /** The worker's polling, the source's end, and the cancel flag. */
    method RunStep(e: Event)
      requires Valid() && Enabled(View(), e)
      requires e.Start? || e.RaiseCancel? || e.Permit? || e.SourceEnds? || e.EndPolling?
      modifies this`state, this`cancel, this`worker, this`permit, this`source
      ensures Valid() && View() == Apply(old(View()), e)
    {
      Moves(View(), e);
      match e {
        case Start(starts) => state, worker, source := Running, Polling, starts;
        case RaiseCancel => cancel := true;
        case Permit(held) => permit := held;
        case SourceEnds => source := false;
        case EndPolling(outcome) => worker := Ended(outcome);
      }
    }

    /** Other threads than the worker: whatever of their steps is possible. */
    method Happen(steps: seq<Event>)
      requires Valid()
      modifies this
      ensures Valid() && Onward(old(View()), View()) && worker == old(worker) && attempts == old(attempts)
      ensures old(state).Terminal() ==> state == old(state)
      ensures View() == AfterAll(old(View()), steps)
    {
      for i := 0 to |steps|
        invariant Valid() && Onward(old(View()), View()) && worker == old(worker) && attempts == old(attempts)
        invariant old(state).Terminal() ==> state == old(state)
        invariant View() == AfterAll(old(View()), steps[..i])
      {
        assert steps[..i + 1][..i] == steps[..i];
        OtherStep(steps[i]);
      }
      assert steps[..|steps|] == steps;
    }

    /** The same, as far as the operations rely on it. */
    method Others(steps: seq<Event>)
      requires Valid()
      modifies this
      ensures Valid() && Onward(old(View()), View()) && worker == old(worker) && attempts == old(attempts)
      ensures old(state).Terminal() ==> state == old(state)
      ensures steps == [] ==> View() == old(View())
    {
      Happen(steps);
    }

    method OtherStep(e: Event)
      requires Valid()
      modifies this
      ensures Valid() && Onward(old(View()), View()) && worker == old(worker) && attempts == old(attempts)
      ensures old(state).Terminal() ==> state == old(state)
      ensures View() == AfterForeign(old(View()), e)
    {
      if !Foreign(e) || (e == RaiseCancel && !stopCalled) || (e == SourceEnds && !source) {
        return;
      }
      ReachableIsSafe(View());
      ForeignKeepsWorker(View(), e);
      Moves(View(), e);
      if e == StopCall {
        var _ := RequestStop();
      } else if e.Finish? {
        var _ := FinishIfComplete(Another);
      } else {
        RunStep(e);
      }
    }

    // ---- the operations ----

    /** `_complete`: the terminal state, its record, and the worker's last look. */
    method Complete(ok: bool, others: nat -> seq<Event>)
      requires Valid() && worker.Ended?
      modifies this
      ensures Valid() && worker == Dead && attempts == 1
      ensures state == if !ok then Failed else if old(cancel) then Cancelled else old(worker).outcome
      ensures finished ==> Clean(View())
    {
      ReachableIsSafe(View());
      SetTerminal();
      Others(others(0));
      AppendTerminal(ok);
      Others(others(1));
      if !ok {
        FailRun();
        Others(others(2));
      }
      var _ := FinishIfComplete(TheWorker);
      OverIsClean(View());
    }

    /**
     `stop`: a run that is idle or over is not touched. Any other is told to cancel, and if
     its terminal state is not set by then (`inTime`) it will end as cancelled, or as failed.
     */
    method Stop(others: nat -> seq<Event>) returns (over: bool, ghost inTime: bool)
      requires Valid()
      modifies this
      ensures Valid() && (inTime ==> Cancelling(View()))
      ensures !old(state).Terminal() && old(state) != Idle && others(0) == [] ==> inTime
      ensures old(state).Terminal() || old(state) == Idle ==> over && View() == old(View())
      ensures !old(state).Terminal() && old(state) != Idle ==>
        cancel && (over ==> finished && Clean(View()) && attempts == 1) &&
        (over <==> state.Terminal() && !permit && !source && worker == Dead)
    {
      inTime := false;
      over := RequestStop();
      if over {
        return;
      }
      Others(others(0));
      RunStep(RaiseCancel);
      inTime := !state.Terminal();
      Others(others(1));
      Moves(View(), Finish(Another));
      over := FinishIfComplete(Another);
    }
  }
}
