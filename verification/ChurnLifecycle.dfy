/**
 The life of a churn run as interleaved atomic steps of its worker, its stream worker
 and any number of other threads that stop it, look at it or wait for it.
 */
module ChurnLifecycle {
  import opened Common
  import opened Phases
  import opened Runs

  /** How far the worker has come. */
  datatype Worker =
    | Unborn
    | Cycling
    | Proposing(outcome: Phase)     // the cycles are over; settlement may follow
    | Sampling(outcome: Phase)      // in settlement
    | Decided(terminal: Phase)      // the cancel flag has been read for the last time
    | Leaving                       // the pending terminal state is set
    | Writing                       // it records the terminal state itself
    | Dead

  /** The thread that records the terminal state, and how far it is with it. */
  datatype Writer = NoWriter | Appending(who: By) | WriteFailed(who: By) | Written(who: By)

  datatype State = State(
    phase: Phase,
    stopCalled: bool,
    cancel: bool,
    pending: Option<Phase>,
    worker: Worker,
    stream: bool,
    workerPermit: bool,
    streamPermit: bool,
    recorded: bool,
    writer: Writer,
    attempts: nat,
    finished: bool)
  {
    /** `budget.active`. */
    function Permits(): nat {
      (if workerPermit then 1 else 0) + (if streamPermit then 1 else 0)
    }

    /** The worker has nothing left to do but to record and to end. */
    predicate WorkerDone() {
      worker in {Leaving, Writing, Dead}
    }
  }

  function Init(): State {
    State(Idle, false, false, None, Unborn, false, false, false, false, NoWriter, 0, false)
  }

  datatype Event =
    | Start
    | StopCall
    | RaiseCancel
    | WorkerPermit(held: bool)
    | OpenStream
    | StreamPermit(held: bool)
    | StreamEnds
    | EndCycles(outcome: Phase)
    | BeginSettlement
    | Decide(failed: bool)
    | SetPending
    | Finish(who: By)
    | Append(ok: bool)
    | MarkFailed
    | MarkFinished

  predicate Enabled(s: State, e: Event) {
    match e
    case Start => s.phase == Idle && s.worker == Unborn
    case StopCall => true
    case RaiseCancel => s.stopCalled
    case WorkerPermit(held) => s.worker == Cycling || s.worker.Sampling?
    case OpenStream => s.worker == Cycling && !s.stream
    case StreamPermit(held) => s.stream
    case StreamEnds => s.stream && !s.streamPermit
    case EndCycles(outcome) => s.worker == Cycling && !s.workerPermit && outcome.Terminal()
    case BeginSettlement => s.worker.Proposing?
    case Decide(failed) => (s.worker.Proposing? || s.worker.Sampling?) && !s.workerPermit
    case SetPending => s.worker.Decided?
    case Finish(who) => who == TheWorker ==> s.worker == Leaving
    case Append(_) => s.writer.Appending?
    case MarkFailed => s.writer.WriteFailed?
    case MarkFinished => s.writer.Written?
  }

  function AfterStop(s: State): State {
    if s.phase.Terminal() || s.phase == Idle then s else s.(phase := Stopping, stopCalled := true)
  }

  /** The proposal for the terminal state: a cancelled run is cancelled, whatever else happened. */
  function AfterEndCycles(s: State, outcome: Phase): State {
    s.(worker := Proposing(if s.cancel then Cancelled else outcome))
  }

  /** Settlement follows a completed or cancelled run, if there is anything to compare. */
  function AfterBeginSettlement(s: State): State
    requires s.worker.Proposing?
  {
    if s.worker.outcome in {Completed, Cancelled} then s.(phase := Settling, worker := Sampling(s.worker.outcome))
    else s
  }

  /** The end of the run: an exception in settlement proposes a failure; the cancel flag has the last word. */
  function AfterDecide(s: State, failed: bool): State
    requires s.worker.Proposing? || s.worker.Sampling?
  {
    s.(worker := Decided(if s.cancel then Cancelled else if failed then Failed else s.worker.outcome))
  }

  function AfterSetPending(s: State): State
    requires s.worker.Decided?
  {
    s.(
      pending := Some(s.worker.terminal),
      phase := if s.phase.Terminal() then s.phase else Stopping,
      worker := Leaving)
  }

  /** The checks of `_finish_if_complete` that send a caller away. */
  predicate MustWait(s: State, who: By) {
    s.pending.None? || (who == Another && s.worker != Dead) || s.stream || s.Permits() != 0
  }

  /** `_finish_if_complete`, the block under the lock: the first caller that finds everything clean records. */
  function AfterFinish(s: State, who: By): State {
    if s.phase.Terminal() then Left(s.(finished := true), who)
    else if MustWait(s, who) then Left(s, who)
    else if s.recorded then Left(s.(phase := s.pending.value, finished := true), who)
    else Won(s, who)
  }

  /** The worker, when it is the caller, has nothing left to do. */
  function Left(s: State, who: By): State {
    if who == TheWorker then s.(worker := Dead) else s
  }

  /** The terminal state is taken, and the caller has to record it. */
  function Won(s: State, who: By): State
    requires s.pending.Some?
  {
    s.(
      phase := s.pending.value,
      recorded := true,
      writer := Appending(who),
      worker := if who == TheWorker then Writing else s.worker)
  }

  function AfterAppend(s: State, ok: bool): State
    requires s.writer.Appending?
  {
    s.(attempts := s.attempts + 1, writer := if ok then Written(s.writer.who) else WriteFailed(s.writer.who))
  }

  function AfterMarkFinished(s: State): State
    requires s.writer.Written?
  {
    s.(finished := true, writer := NoWriter, worker := if s.writer.who == TheWorker then Dead else s.worker)
  }

  function Apply(s: State, e: Event): State
    requires Enabled(s, e)
  {
    match e
    case Start => s.(phase := Running, worker := Cycling)
    case StopCall => AfterStop(s)
    case RaiseCancel => s.(cancel := true)
    case WorkerPermit(held) => s.(workerPermit := held)
    case OpenStream => s.(stream := true)
    case StreamPermit(held) => s.(streamPermit := held)
    case StreamEnds => s.(stream := false)
    case EndCycles(outcome) => AfterEndCycles(s, outcome)
    case BeginSettlement => AfterBeginSettlement(s)
    case Decide(failed) => AfterDecide(s, failed)
    case SetPending => AfterSetPending(s)
    case Finish(who) => AfterFinish(s, who)
    case Append(ok) => AfterAppend(s, ok)
    case MarkFailed => s.(phase := Failed, writer := Written(s.writer.who))
    case MarkFinished => AfterMarkFinished(s)
  }

  ghost predicate Step(s: State, e: Event, t: State) {
    Enabled(s, e) && t == Apply(s, e)
  }

  // ---- what every step keeps ----

  ghost predicate Inv(s: State) {
    (s.phase == Idle <==> s.worker == Unborn) &&
    (s.pending.Some? <==> s.WorkerDone()) && (s.pending.Some? ==> s.pending.value.Terminal()) &&
    (s.worker.Proposing? || s.worker.Sampling? ==> s.worker.outcome.Terminal()) &&
    (s.worker.Decided? ==> s.worker.terminal.Terminal()) &&
    (s.workerPermit ==> s.worker == Cycling || s.worker.Sampling?) && (s.streamPermit ==> s.stream) &&
    (s.worker == Unborn ==> !s.stream) &&
    (s.phase.Terminal() ==>
      s.pending.Some? && !s.stream && s.Permits() == 0 && (s.phase == s.pending.value || s.phase == Failed)) &&
    (s.recorded <==> s.phase.Terminal()) &&
    (s.writer.NoWriter? ==> s.attempts == (if s.recorded then 1 else 0)) &&
    (!s.writer.NoWriter? ==> s.recorded && s.attempts == (if s.writer.Appending? then 0 else 1)) &&
    (s.worker == Writing <==> !s.writer.NoWriter? && s.writer.who == TheWorker) &&
    (s.finished ==> s.recorded)
  }

  lemma InvPreserved(s: State, e: Event)
    requires Inv(s) && Enabled(s, e)
    ensures Inv(Apply(s, e))
  {
  }

  // ---- whole runs ----

  lemma RunIsSafe(states: seq<State>, events: seq<Event>, i: nat)
    requires IsRun(Init(), Step, states, events) && i < |states|
    ensures Inv(states[i])
  {
    forall s, e, t | Inv(s) && Step(s, e, t)
      ensures Inv(t)
    {
      InvPreserved(s, e);
    }
    Always(Init(), Step, Inv, states, events, i);
  }

  lemma TerminalStep(s: State, e: Event)
    requires Inv(s) && Enabled(s, e) && s.phase.Terminal()
    ensures Apply(s, e).pending == s.pending
    ensures Apply(s, e).phase == if e == MarkFailed then Failed else s.phase
  {
  }

  /** A terminal state is the decided one and never gives way to another, except that a failed write makes it failed. */
  lemma {:induction false} TerminalIsAbsorbing(states: seq<State>, events: seq<Event>, i: nat, j: nat)
    requires IsRun(Init(), Step, states, events) && i <= j < |states| && states[i].phase.Terminal()
    ensures states[j].phase.Terminal() && states[j].pending == states[i].pending
    ensures states[j].pending.Some? && states[j].phase in {states[j].pending.value, Failed}
    ensures states[j].phase == states[i].phase ||
            (states[j].phase == Failed && exists k :: i <= k < j && events[k] == MarkFailed)
    decreases j
  {
    if i < j {
      TerminalIsAbsorbing(states, events, i, j - 1);
      RunIsSafe(states, events, j - 1);
      assert StepAt(Step, states, events, j - 1);
      TerminalStep(states[j - 1], events[j - 1]);
    } else {
      RunIsSafe(states, events, j);
    }
  }

  /** The terminal record is attempted at most once, by one thread, when everything is clean. */
  lemma TerminalRecordedOnce(states: seq<State>, events: seq<Event>, i: nat)
    requires IsRun(Init(), Step, states, events) && i < |states|
    ensures states[i].attempts <= 1
    ensures states[i].attempts == 1 <==> states[i].phase.Terminal() && !states[i].writer.Appending?
    ensures states[i].attempts == 1 || states[i].writer.Appending? ==> Clean(states[i])
  {
    RunIsSafe(states, events, i);
  }

  /** No device permit is held, the stream worker is dead, and the worker has nothing left but to record and end. */
  ghost predicate Clean(s: State) {
    s.Permits() == 0 && !s.stream && s.WorkerDone()
  }

  lemma FinishedStays(s: State, e: Event)
    requires Enabled(s, e) && s.finished
    ensures Apply(s, e).finished
  {
    match e {
      case Finish(who) => assert AfterFinish(s, who).finished;
      case _ =>
    }
  }

  /** A run that reports finished is over and clean, and stays so. */
  lemma {:induction false} FinishedIsClean(states: seq<State>, events: seq<Event>, i: nat, j: nat)
    requires IsRun(Init(), Step, states, events) && i <= j < |states| && states[i].finished
    ensures states[j].finished && states[j].phase.Terminal() && Clean(states[j])
    decreases j
  {
    if i == j {
    } else {
      FinishedIsClean(states, events, i, j - 1);
      assert StepAt(Step, states, events, j - 1);
      FinishedStays(states[j - 1], events[j - 1]);
    }
    RunIsSafe(states, events, j);
  }

  // ---- finished, and recorded? ----

  /** This look at the run is the one that has to write the terminal record. */
  ghost predicate Wins(states: seq<State>, events: seq<Event>, w: nat)
    requires w < |events| && |states| == |events| + 1
  {
    events[w].Finish? && !states[w].recorded && states[w + 1].recorded
  }

  /** From the winning look at w on, nobody has tried to append the record before step i. */
  ghost predicate NotTriedSince(events: seq<Event>, w: nat, i: nat)
    requires i <= |events|
  {
    forall k :: w < k < i ==> !events[k].Append?
  }

  /** Only a Finish makes a run recorded, and it leaves the attempt still to be made. */
  lemma OnlyFinishWins(s: State, e: Event)
    requires Inv(s) && Enabled(s, e)
    ensures !s.recorded && Apply(s, e).recorded ==> e.Finish? && Apply(s, e).attempts == 0
    ensures s.recorded ==> Apply(s, e).recorded
    ensures Apply(s, e).attempts == if e.Append? then s.attempts + 1 else s.attempts
  {
  }

  lemma {:induction false} AttemptsAfterWin(states: seq<State>, events: seq<Event>, w: nat, i: nat)
    requires IsRun(Init(), Step, states, events) && w < i < |states| && Wins(states, events, w)
    ensures states[i].recorded && (states[i].attempts == 0 <==> NotTriedSince(events, w, i))
    decreases i
  {
    RunIsSafe(states, events, i - 1);
    assert StepAt(Step, states, events, i - 1);
    OnlyFinishWins(states[i - 1], events[i - 1]);
    if i == w + 1 {
    } else {
      AttemptsAfterWin(states, events, w, i - 1);
    }
  }

  lemma {:induction false} RecordedWasWon(states: seq<State>, events: seq<Event>, i: nat)
    requires IsRun(Init(), Step, states, events) && i < |states| && states[i].recorded
    ensures exists w: nat :: w < i && Wins(states, events, w)
  {
    if i == 0 {
      assert false;
    } else {
      RunIsSafe(states, events, i - 1);
      assert StepAt(Step, states, events, i - 1);
      OnlyFinishWins(states[i - 1], events[i - 1]);
      if states[i - 1].recorded {
        RecordedWasWon(states, events, i - 1);
      } else {
        assert Wins(states, events, i - 1);
      }
    }
  }

  /** What makes a run report finished: the writer, or a look that finds the state terminal already. */
  lemma WhoFinishes(s: State, e: Event)
    requires Inv(s) && Enabled(s, e) && !s.finished && Apply(s, e).finished
    ensures e == MarkFinished || (e.Finish? && s.phase.Terminal())
    ensures e == MarkFinished ==> Apply(s, e).attempts == 1
    ensures e.Finish? ==> s.recorded && Apply(s, e).attempts == s.attempts
  {
  }

  /**
   When a run first reports finished, its terminal record has not been attempted if and only
   if what reports it is a look that finds the state terminal already, before the thread
   whose earlier look won the record has tried to append it. The writer itself never does.
   */
  lemma FinishedTooEarlyIff(states: seq<State>, events: seq<Event>, i: nat)
    requires IsRun(Init(), Step, states, events) && i < |events| && !states[i].finished && states[i + 1].finished
    ensures events[i] == MarkFinished || (events[i].Finish? && states[i].phase.Terminal())
    ensures states[i + 1].attempts == 0 <==>
      events[i].Finish? && exists w: nat :: w < i && Wins(states, events, w) && NotTriedSince(events, w, i)
    ensures events[i] == MarkFinished ==> states[i + 1].attempts == 1
  {
    RunIsSafe(states, events, i);
    assert StepAt(Step, states, events, i);
    WhoFinishes(states[i], events[i]);
    if events[i].Finish? {
      RecordedWasWon(states, events, i);
      forall w: nat | w < i && Wins(states, events, w)
        ensures states[i].attempts == 0 <==> NotTriedSince(events, w, i)
      {
        AttemptsAfterWin(states, events, w, i);
      }
    }
  }

  lemma FinishedBeforeRecordedHappens()
    ensures var s := Apply(Apply(Apply(Apply(Init(), Start), EndCycles(Completed)), Decide(false)), SetPending);
      Enabled(s, Finish(TheWorker)) &&
      var t := Apply(s, Finish(TheWorker));
      Enabled(t, Finish(Another)) && Apply(t, Finish(Another)).finished && Apply(t, Finish(Another)).attempts == 0
  {
  }

  /** Whatever happens next, the run ends as cancelled, or as failed because that could not be recorded. */
  ghost predicate Cancelling(s: State) {
    s.cancel && (s.worker.Decided? ==> s.worker.terminal == Cancelled) &&
    (s.pending.Some? ==> s.pending.value == Cancelled) && (s.phase.Terminal() ==> s.phase in {Cancelled, Failed})
  }

  lemma CancellingStays(s: State, e: Event)
    requires Inv(s) && Cancelling(s) && Enabled(s, e)
    ensures Cancelling(Apply(s, e))
  {
  }

  /** A stop that the run sees before it decides makes it cancelled, whatever it was going to be. */
  lemma {:induction false} CancelledInTime(states: seq<State>, events: seq<Event>, i: nat, j: nat)
    requires IsRun(Init(), Step, states, events) && i <= j < |states|
    requires states[i].cancel && !states[i].worker.Decided? && states[i].pending.None?
    ensures Cancelling(states[j])
    decreases j
  {
    if i < j {
      RunIsSafe(states, events, j - 1);
      CancelledInTime(states, events, i, j - 1);
      assert StepAt(Step, states, events, j - 1);
      CancellingStays(states[j - 1], events[j - 1]);
    } else {
      RunIsSafe(states, events, j);
    }
  }

  // ---- how a run ends ----

  /** The cycles are over with this proposal, and nothing has been decided yet. */
  predicate Proposed(s: State, proposal: Phase) {
    s.worker == Proposing(proposal) || s.worker == Sampling(proposal)
  }

  /** The run is going to end, or has ended, with this terminal state, unless its record cannot be written. */
  predicate Bound(s: State, terminal: Phase) {
    s.worker == Worker.Decided(terminal) || s.pending == Some(terminal)
  }

  lemma ProposedStep(s: State, e: Event, proposal: Phase)
    requires Inv(s) && Enabled(s, e) && Proposed(s, proposal)
    ensures if e.Decide? then Bound(Apply(s, e), if s.cancel then Cancelled else if e.failed then Failed else proposal)
            else Proposed(Apply(s, e), proposal)
  {
  }

  lemma BoundStep(s: State, e: Event, terminal: Phase)
    requires Inv(s) && Enabled(s, e) && Bound(s, terminal)
    ensures Bound(Apply(s, e), terminal) && !e.Decide?
    ensures Apply(s, e).phase.Terminal() ==> Apply(s, e).phase in {terminal, Failed}
  {
  }

  /**
   After the cycles ended with an outcome: until the run decides, that outcome is proposed,
   or cancelled if the flag was up; from the decision on the run is bound to what was
   proposed, to failed if settlement failed, or to cancelled if the flag was up by then.
   */
  lemma {:induction false} RunEndsAs(states: seq<State>, events: seq<Event>, i: nat, j: nat)
    requires IsRun(Init(), Step, states, events) && i < j < |states| && events[i].EndCycles?
    ensures var proposal := if states[i].cancel then Cancelled else events[i].outcome;
      (Proposed(states[j], proposal) && forall d :: i < d < j ==> !events[d].Decide?) ||
      exists d :: i < d < j && DecidedAt(states, events, d, j, proposal)
    decreases j
  {
    var proposal := if states[i].cancel then Cancelled else events[i].outcome;
    RunIsSafe(states, events, j - 1);
    assert StepAt(Step, states, events, j - 1);
    if i + 1 < j {
      RunEndsAs(states, events, i, j - 1);
      if Proposed(states[j - 1], proposal) {
        ProposedStep(states[j - 1], events[j - 1], proposal);
        if events[j - 1].Decide? {
          assert DecidedAt(states, events, j - 1, j, proposal);
        }
      } else {
        var d :| i < d < j - 1 && DecidedAt(states, events, d, j - 1, proposal);
        var terminal := TerminalFor(states[d], events[d], proposal);
        BoundStep(states[j - 1], events[j - 1], terminal);
        assert DecidedAt(states, events, d, j, proposal);
      }
    }
  }

  /** What a decision makes of a proposal. */
  function TerminalFor(s: State, decision: Event, proposal: Phase): Phase
    requires decision.Decide?
  {
    if s.cancel then Cancelled else if decision.failed then Failed else proposal
  }

  /** The run decided at step d, and at j it is bound to what it decided. */
  ghost predicate DecidedAt(states: seq<State>, events: seq<Event>, d: int, j: int, proposal: Phase)
    requires 0 <= d < |events| && |events| < |states| && 0 <= j < |states|
  {
    events[d].Decide? && Bound(states[j], TerminalFor(states[d], events[d], proposal)) &&
    (states[j].phase.Terminal() ==> states[j].phase in {TerminalFor(states[d], events[d], proposal), Failed})
  }

  /** Settlement is entered only by a run that completed or was cancelled. */
  ghost predicate Settles(s: State) {
    (s.worker.Sampling? ==> s.worker.outcome == Completed || s.worker.outcome == Cancelled) &&
    (s.phase == Settling ==> s.worker.Sampling? || s.worker.Decided?)
  }

  lemma SettlesStep(s: State, e: Event)
    requires Inv(s) && Settles(s) && Enabled(s, e)
    ensures Settles(Apply(s, e))
  {
  }

  lemma OnlyDoneRunsSettle(states: seq<State>, events: seq<Event>, i: nat)
    requires IsRun(Init(), Step, states, events) && i < |states|
    ensures Settles(states[i])
  {
    forall s, e, t | Inv(s) && Settles(s) && Step(s, e, t)
      ensures Inv(t) && Settles(t)
    {
      InvPreserved(s, e);
      SettlesStep(s, e);
    }
    Always(Init(), Step, (s: State) => Inv(s) && Settles(s), states, events, i);
  }

  // ---- the runner ----

  ghost predicate Reachable(s: State) {
    Reaches(Init(), Step, s)
  }

  lemma ReachableIsSafe(s: State)
    requires Reachable(s)
    ensures Inv(s)
  {
    var states: seq<State>, events: seq<Event> :| IsRun(Init(), Step, states, events) && states[|events|] == s;
    RunIsSafe(states, events, |events|);
  }

  lemma Moves(s: State, e: Event)
    requires Reachable(s) && Enabled(s, e)
    ensures Reachable(Apply(s, e))
  {
    ReachesNext(Init(), Step, s, e, Apply(s, e));
  }

  /** What every reachable state says of a run that has its terminal state or reports finished. */
  lemma OverIsClean(s: State)
    requires Reachable(s)
    ensures s.finished ==> s.phase.Terminal()
    ensures s.phase.Terminal() ==> Clean(s) && s.pending.Some? && s.phase in {s.pending.value, Failed}
    ensures !s.writer.NoWriter? ==> s.phase.Terminal() && s.attempts == (if s.writer.Appending? then 0 else 1)
  {
    ReachableIsSafe(s);
  }

  predicate ByWriter(e: Event) {
    e.Append? || e == MarkFailed || e == MarkFinished
  }

  /** A step that is none of the given thread's own: the thread is in `_finish_if_complete`, and may be the writer. */
  predicate Foreign(e: Event, who: By, writing: bool) {
    (writing ==> !ByWriter(e)) && (who == TheWorker ==> e != Finish(TheWorker) && e != SetPending)
  }

  /** Nothing is taken back: the decided terminal state, the flags, and a stop in time. */
  ghost predicate Onward(s: State, t: State) {
    (s.stopCalled ==> t.stopCalled) && (s.cancel ==> t.cancel) && (s.finished ==> t.finished) &&
    (s.pending.Some? ==> t.pending == s.pending) &&
    (s.phase.Terminal() ==> t.phase.Terminal()) && s.attempts <= t.attempts && (Cancelling(s) ==> Cancelling(t))
  }

  lemma StepsGoOnward(s: State, e: Event)
    requires Inv(s) && Enabled(s, e)
    ensures Onward(s, Apply(s, e))
  {
  }

  lemma MovesOnward(s: State, e: Event)
    requires Reachable(s) && Enabled(s, e)
    ensures Onward(s, Apply(s, e))
  {
    ReachableIsSafe(s);
    StepsGoOnward(s, e);
  }

  lemma ForeignKeepsWriter(s: State, e: Event, who: By, writing: bool)
    requires Inv(s) && Enabled(s, e) && Foreign(e, who, writing)
    ensures writing && !s.writer.NoWriter? ==> Apply(s, e).writer == s.writer && Apply(s, e).phase == s.phase
    ensures writing && !s.writer.NoWriter? ==> Apply(s, e).attempts == s.attempts
    ensures who == TheWorker && s.worker == Leaving ==> Apply(s, e).worker == s.worker
    ensures writing && s.worker in {Writing, Dead} ==> Apply(s, e).worker == s.worker
  {
  }

  /** A step of another thread, if it is possible now. */
  function AfterForeign(s: State, e: Event, who: By, writing: bool): State {
    if Enabled(s, e) && Foreign(e, who, writing) then Apply(s, e) else s
  }

  function AfterAll(s: State, steps: seq<Event>, who: By, writing: bool): State {
    if steps == [] then s
    else AfterForeign(AfterAll(s, steps[..|steps| - 1], who, writing), steps[|steps| - 1], who, writing)
  }

  /**
   The parts of `ChurnRunner` that decide its life. `others` says what other threads do at
   each point where they can come in between; `Others` performs whatever of it is possible.
   */
  class ChurnRunner {
    var state: Phase
    var cancel: bool
    var pendingTerminal: Option<Phase>
    var terminalRecorded: bool
    var finished: bool

    /** The worker, the stream worker and the permits they hold. */
    var worker: Worker
    var stream: bool
    var workerPermit: bool
    var streamPermit: bool

    var writer: Writer
    var stopCalled: bool
    ghost var attempts: nat

    ghost function View(): State
      reads this
    {
      State(state, stopCalled, cancel, pendingTerminal, worker, stream, workerPermit, streamPermit, terminalRecorded,
            writer, attempts, finished)
    }

    ghost predicate Valid()
      reads this
    {
      Reachable(View())
    }

    constructor ()
      ensures Valid() && View() == Init()
    {
      state, cancel, pendingTerminal, terminalRecorded, finished := Idle, false, None, false, false;
      worker, stream, workerPermit, streamPermit, writer := Unborn, false, false, false, NoWriter;
      stopCalled, attempts := false, 0;
      new;
      ReachesInit(Init(), Step);
    }

    // ---- atomic blocks ----

    /** `stop`, the block under the lock. */
    method RequestStop() returns (already: bool)
      requires Valid()
      modifies this`state, this`stopCalled
      ensures Valid() && View() == AfterStop(old(View())) && already == (old(state).Terminal() || old(state) == Idle)
      ensures state == if already then old(state) else Stopping
    {
      ghost var next := Apply(View(), StopCall);
      Moves(View(), StopCall);
      already := state.Terminal() || state == Idle;
      if !already {
        state, stopCalled := Stopping, true;
      }
      assert View() == next;
    }

    /** `_finish_if_complete`, the block under the lock: whether the caller has to record the terminal state. */
    method Look(who: By) returns (record: bool)
      requires Valid() && Enabled(View(), Finish(who))
      modifies this`state, this`terminalRecorded, this`finished, this`worker, this`writer
      ensures Valid() && View() == AfterFinish(old(View()), who)
      ensures record <==> !old(terminalRecorded) && terminalRecorded
    {
      Moves(View(), Finish(who));
      record := TakeTerminal(who);
    }

    /** The checks, and what a caller finds or takes. */
    method TakeTerminal(who: By) returns (record: bool)
      modifies this`state, this`terminalRecorded, this`finished, this`worker, this`writer
      ensures View() == AfterFinish(old(View()), who)
      ensures record <==> !old(terminalRecorded) && terminalRecorded
    {
      record := false;
      if state.Terminal() {
        finished := true;
      } else if pendingTerminal.None? || (who == Another && worker != Dead) || stream || workerPermit || streamPermit {
      } else {
        state := pendingTerminal.value;
        if terminalRecorded {
          finished := true;
        } else {
          terminalRecorded, writer, record := true, Appending(who), true;
        }
      }
      if who == TheWorker {
        worker := if record then Writing else Dead;
      }
    }

    /** The append of the terminal record. */
    method AppendTerminal(ok: bool)
      requires Valid() && writer.Appending?
      modifies this`attempts, this`writer
      ensures Valid() && View() == AfterAppend(old(View()), ok)
    {
      ghost var next := Apply(View(), Append(ok));
      Moves(View(), Append(ok));
      attempts := attempts + 1;
      writer := if ok then Written(writer.who) else WriteFailed(writer.who);
      assert View() == next;
    }

    method FailRun()
      requires Valid() && writer.WriteFailed?
      modifies this`state, this`writer
      ensures Valid() && View() == Apply(old(View()), MarkFailed)
    {
      ghost var next := Apply(View(), MarkFailed);
      Moves(View(), MarkFailed);
      state := Failed;
      writer := Written(writer.who);
      assert View() == next;
    }

    method SetFinished()
      requires Valid() && writer.Written?
      modifies this`finished, this`writer, this`worker
      ensures Valid() && View() == AfterMarkFinished(old(View()))
    {
      Moves(View(), MarkFinished);
      finished := true;
      worker := if writer.who == TheWorker then Dead else worker;
      writer := NoWriter;
    }

    /** `_run`, its last block under the lock. */
    method SetPendingTerminal()
      requires Valid() && worker.Decided?
      modifies this`state, this`pendingTerminal, this`worker
      ensures Valid() && View() == AfterSetPending(old(View()))
    {
      Moves(View(), SetPending);
      pendingTerminal := Some(worker.terminal);
      if !state.Terminal() {
        state := Stopping;
      }
      worker := Leaving;
    }

    /** The run's threads start, take and give back permits, and the stream worker comes and goes. */
    method RunStep(e: Event)
      requires Valid() && Enabled(View(), e)
      requires e.Start? || e.WorkerPermit? || e.OpenStream? || e.StreamPermit? || e.StreamEnds? || e.RaiseCancel?
      modifies this`state, this`cancel, this`worker, this`stream, this`workerPermit, this`streamPermit
      ensures Valid() && View() == Apply(old(View()), e)
    {
      ghost var next := Apply(View(), e);
      Moves(View(), e);
      match e {
        case Start => state, worker := Running, Cycling;
        case RaiseCancel => cancel := true;
        case WorkerPermit(held) => workerPermit := held;
        case OpenStream => stream := true;
        case StreamPermit(held) => streamPermit := held;
        case StreamEnds => stream := false;
      }
      assert View() == next;
    }

    /** The worker goes from its cycles to settlement and to its decision. */
    method WorkerStep(e: Event)
      requires Valid() && Enabled(View(), e) && (e.EndCycles? || e.BeginSettlement? || e.Decide?)
      modifies this`state, this`worker
      ensures Valid() && View() == Apply(old(View()), e)
    {
      ghost var next := Apply(View(), e);
      Moves(View(), e);
      match e {
        case EndCycles(outcome) => worker := Proposing(if cancel then Cancelled else outcome);
        case BeginSettlement =>
          if worker.outcome in {Completed, Cancelled} {
            state, worker := Settling, Sampling(worker.outcome);
          }
        case Decide(failed) =>
          worker := Decided(if cancel then Cancelled else if failed then Failed else worker.outcome);
      }
      assert View() == next;
    }

    /** One step of any thread. */
    method Perform(e: Event)
      requires Valid() && Enabled(View(), e)
      modifies this
      ensures Valid() && View() == Apply(old(View()), e)
    {
      match e {
        case StopCall => var _ := RequestStop();
        case Finish(who) => var _ := Look(who);
        case Append(ok) => AppendTerminal(ok);
        case MarkFailed => FailRun();
        case MarkFinished => SetFinished();
        case SetPending => SetPendingTerminal();
        case EndCycles(_) => WorkerStep(e);
        case BeginSettlement => WorkerStep(e);
        case Decide(_) => WorkerStep(e);
        case _ => RunStep(e);
      }
    }

    /** The caller's own place in the run is as it was. */
    twostate predicate Undisturbed(who: By, writing: bool)
      reads this
    {
      (writing ==> writer == old(writer) && state == old(state) && attempts == old(attempts)) &&
      (who == TheWorker ==> worker == old(worker))
    }

    /** Other threads: whatever of their steps is possible, and is not the caller's own. */
    method Happen(steps: seq<Event>, who: By, writing: bool)
      requires Valid() && (writing ==> !writer.NoWriter? && writer.who == who)
      requires who == TheWorker ==> worker == if writing then Writing else Leaving
      modifies this
      ensures Valid() && Onward(old(View()), View()) && Undisturbed(who, writing)
      ensures View() == AfterAll(old(View()), steps, who, writing)
    {
      for i := 0 to |steps|
        invariant Valid() && Onward(old(View()), View()) && Undisturbed(who, writing)
        invariant View() == AfterAll(old(View()), steps[..i], who, writing)
      {
        assert steps[..i + 1][..i] == steps[..i];
        OtherStep(steps[i], who, writing);
      }
      assert steps[..|steps|] == steps;
    }

    /** The same, as far as the operations rely on it. */
    method Others(steps: seq<Event>, who: By, writing: bool)
      requires Valid() && (writing ==> !writer.NoWriter? && writer.who == who)
      requires who == TheWorker ==> worker == if writing then Writing else Leaving
      modifies this
      ensures Valid() && Onward(old(View()), View()) && Undisturbed(who, writing)
      ensures steps == [] ==> View() == old(View())
    {
      Happen(steps, who, writing);
    }

    method OtherStep(e: Event, who: By, writing: bool)
      requires Valid() && (writing ==> !writer.NoWriter? && writer.who == who)
      requires who == TheWorker ==> worker == if writing then Writing else Leaving
      modifies this
      ensures Valid() && Onward(old(View()), View()) && Undisturbed(who, writing)
      ensures View() == AfterForeign(old(View()), e, who, writing)
    {
      if IsPossible(e) && Foreign(e, who, writing) {
        ReachableIsSafe(View());
        ForeignKeepsWriter(View(), e, who, writing);
        StepsGoOnward(View(), e);
        Perform(e);
      }
    }

    predicate IsPossible(e: Event)
      reads this
    {
      Enabled(State(state, stopCalled, cancel, pendingTerminal, worker, stream, workerPermit, streamPermit,
                    terminalRecorded, writer, 0, finished), e)
    }

    // ---- the operations ----

    /** The terminal record and the finished flag, by the thread that has to write them; others may look meanwhile. */
    method RecordTerminal(who: By, ok: bool, others: nat -> seq<Event>)
      requires Valid() && writer == Appending(who) && (who == TheWorker ==> worker == Writing)
      modifies this
      ensures Valid() && Onward(old(View()), View()) && finished && state.Terminal()
      ensures attempts == 1 && (who == TheWorker ==> worker == Dead)
      ensures pendingTerminal.Some? && state == if ok then old(state) else Failed
    {
      OverIsClean(View());
      TryRecord(who, ok, others);
      if !ok {
        MovesOnward(View(), MarkFailed);
        FailRun();
        Others(others(2), who, true);
      }
      OverIsClean(View());
      MovesOnward(View(), MarkFinished);
      SetFinished();
    }

    method TryRecord(who: By, ok: bool, others: nat -> seq<Event>)
      requires Valid() && writer == Appending(who) && (who == TheWorker ==> worker == Writing)
      modifies this
      ensures Valid() && Onward(old(View()), View()) && state == old(state)
      ensures who == TheWorker ==> worker == old(worker)
      ensures writer == if ok then Written(who) else WriteFailed(who)
    {
      Others(others(0), who, true);
      MovesOnward(View(), Append(ok));
      AppendTerminal(ok);
      Others(others(1), who, true);
    }

    /**
     `_finish_if_complete`: it answers true only for a run that is over and clean, and false
     only while the run is undecided or something of it is still alive or holds a permit.
     */
    method FinishIfComplete(who: By, ok: bool, others: nat -> seq<Event>) returns (over: bool)
      requires Valid() && Enabled(View(), Finish(who))
      modifies this
      ensures Valid() && Onward(old(View()), View())
      ensures over ==> finished && state.Terminal() && Clean(View())
      ensures over <==>
        old(state).Terminal() ||
        (old(pendingTerminal).Some? && !old(stream) && !old(workerPermit) && !old(streamPermit) &&
         (who == Another ==> old(worker) == Dead))
      ensures !over && who == Another ==> View() == old(View())
      ensures over && !old(terminalRecorded) ==>
        attempts == 1 && pendingTerminal.Some? && state == if ok then pendingTerminal.value else Failed
      ensures who == TheWorker ==> worker == Dead
    {
      ReachableIsSafe(View());
      MovesOnward(View(), Finish(who));
      var record := Look(who);
      over := record || state.Terminal();
      if record {
        RecordTerminal(who, ok, others);
      }
      OverIsClean(View());
    }

    /** `_run`, from its last block on: the terminal state is decided for good, and the worker ends. */
    method EndRun(ok: bool, others: nat -> seq<Event>)
      requires Valid() && worker.Decided?
      modifies this
      ensures Valid() && Onward(old(View()), View())
      ensures worker == Dead && pendingTerminal == Some(old(worker).terminal)
    {
      MovesOnward(View(), SetPending);
      SetPendingTerminal();
      Others(others(3), TheWorker, false);
      var _ := FinishIfComplete(TheWorker, ok, others);
    }

    /**
     `stop`: a run that is idle or over is not touched. Any other is told to cancel, and if
     it has not decided by then (`inTime`) it will end as cancelled, or as failed because
     that could not be recorded.
     */
    method Stop(ok: bool, others: nat -> seq<Event>) returns (over: bool, ghost inTime: bool)
      requires Valid()
      modifies this
      ensures Valid() && Onward(old(View()), View())
      ensures old(state).Terminal() || old(state) == Idle ==> over && View() == old(View())
      ensures !old(state).Terminal() && old(state) != Idle ==> cancel && (over ==> finished && Clean(View()))
      ensures !over ==>
        !state.Terminal() && (pendingTerminal.None? || stream || workerPermit || streamPermit || worker != Dead)
      ensures inTime ==> Cancelling(View())
      ensures !old(state).Terminal() && old(state) != Idle && others(3) == [] ==>
        (inTime <==> old(pendingTerminal).None? && !old(worker).Decided?)
    {
      MovesOnward(View(), StopCall);
      inTime := false;
      over := RequestStop();
      if over {
        return;
      }
      Others(others(3), Another, false);
      MovesOnward(View(), RaiseCancel);
      RunStep(RaiseCancel);
      ReachableIsSafe(View());
      inTime := pendingTerminal.None? && !worker.Decided?;
      Others(others(4), Another, false);
      over := FinishIfComplete(Another, ok, others);
    }
  }
}
