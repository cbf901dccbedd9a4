/**
 The session manager as interleaved atomic steps. A step is one block that runs under
 the manager's lock, one call into a session, or one thing a session's own threads do.
 `busy` says how far the holder of the transition lock has come.
 */
module SessionProtocol {
  import opened Common
  import opened Runs

  type Target = string

  datatype Kind = Churn | Capture

  datatype Role = Observing(target: Target) | Running(kind: Kind)

  /** An observation is Ended when it is stopped; a run is Finished when `wait_finished` says so. */
  datatype Phase = Live | Stopping | Ended | Finished

  /** A session that was started. Sessions are numbered in the order they started. */
  datatype Part = Part(role: Role, phase: Phase) {
    predicate Active() {
      phase == Live || phase == Stopping
    }

    /** `stop` of an observation, a churn run or a capture run, up to the wait. */
    function Stop(): Part {
      if phase == Live then this.(phase := Stopping) else this
    }

    /** What the session's own threads do next: an observation ends only when it is told to. */
    function Progress(): Part {
      match phase
      case Live => if role.Running? then this.(phase := Ended) else this
      case Stopping => this.(phase := Ended)
      case Ended => if role.Running? then this.(phase := Finished) else this
      case Finished => this
    }
  }

  /** The thread that waits for a run and then returns to observation. */
  datatype Watch = Waiting | Refused | Failed | Resumed
  datatype Watcher = Watcher(kind: Kind, runner: nat, generation: nat, watch: Watch)

  datatype Op = Observe(target: Target) | Automate(kind: Kind)

  datatype Busy =
    | Free
    | Entered(op: Op)                           // the shutdown flag was clear
    | Cleared(op: Op)                           // neither run is active
    | Halting(op: Op)                           // the observation was told to stop
    | Ready(op: Op, stopped: Option<nat>)       // nothing is active
    | Starting(op: Op, stopped: Option<nat>)    // the flag was still clear, under the manager's lock
    | Spawning(kind: Kind, runner: nat)         // installed; its watcher is still to be started
    | Returning(watcher: nat)                   // a watcher holds both locks, and every check passed
    | Closing(rest: seq<nat>)                   // what shutdown has still to stop

  /** What became of a stopped observation that was waiting to return. */
  datatype Fate = ReturnedAs(observer: nat) | Dropped
  datatype Settlement = Settlement(claim: nat, fate: Fate)

  /** `claims` and `settled` are history: observations stopped for an automated run, and what became of them. */
  datatype State = State(
    parts: seq<Part>,
    observer: Option<nat>,
    churn: Option<nat>,
    capture: Option<nat>,
    generation: nat,
    pending: Option<Target>,
    watchers: seq<Watcher>,
    shutdown: bool,
    closed: bool,
    busy: Busy,
    claims: seq<nat>,
    settled: seq<Settlement>)
  {
    function Current(kind: Kind): Option<nat> {
      if kind == Churn then churn else capture
    }

    predicate ActiveAt(part: Option<nat>) {
      part.Some? && part.value < |parts| && parts[part.value].Active()
    }

    function Settle(fate: Fate): seq<Settlement> {
      if pending.Some? && claims != [] then settled + [Settlement(claims[|claims| - 1], fate)] else settled
    }

    function StopPart(part: nat): seq<Part> {
      if part < |parts| then parts[part := parts[part].Stop()] else parts
    }

    /** The checks of a watcher that holds both locks. */
    predicate MayReturn(w: Watcher) {
      !shutdown && generation == w.generation && Current(w.kind) == Some(w.runner) && observer.None? && pending.Some?
    }
  }

  function Init(): State {
    State([], None, None, None, 0, None, [], false, false, Free, [], [])
  }

  datatype Event =
    | Begin(op: Op)
    | CheckRuns
    | HaltObserver
    | AwaitObserver
    | Recheck
    | StartObserver(ok: bool)
    | StartRun(ok: bool)
    | Spawn
    | WatcherEnters(watcher: nat)
    | Return(ok: bool)
    | RaiseFlag
    | Snapshot
    | StopNext
    | UserStop(part: nat)
    | Work(part: nat)

  predicate Enabled(s: State, e: Event) {
    match e
    case Begin(_) => s.busy.Free?
    case CheckRuns => s.busy.Entered?
    case HaltObserver => s.busy.Cleared?
    case AwaitObserver => s.busy.Halting?
    case Recheck => s.busy.Ready?
    case StartObserver(_) => s.busy.Starting? && s.busy.op.Observe?
    case StartRun(_) => s.busy.Starting? && s.busy.op.Automate?
    case Spawn => s.busy.Spawning?
    case WatcherEnters(w) =>
      s.busy.Free? && w < |s.watchers| && s.watchers[w].watch == Waiting && s.watchers[w].runner < |s.parts| &&
      (s.shutdown || s.parts[s.watchers[w].runner].phase == Finished)
    case Return(_) => s.busy.Returning? && s.busy.watcher < |s.watchers| && s.pending.Some?
    case RaiseFlag => true
    case Snapshot => s.shutdown && s.busy.Free?
    case StopNext => s.busy.Closing?
    case UserStop(part) => part < |s.parts|
    case Work(part) => part < |s.parts|
  }

  /** A start path enters the transition lock and looks at the shutdown flag. */
  function AfterBegin(s: State, op: Op): State {
    if s.shutdown then s else s.(busy := Entered(op))
  }

  function AfterCheckRuns(s: State): State
    requires s.busy.Entered?
  {
    if s.ActiveAt(s.churn) || s.ActiveAt(s.capture) then s.(busy := Free) else s.(busy := Cleared(s.busy.op))
  }

  function AfterHaltObserver(s: State): State
    requires s.busy.Cleared?
  {
    if s.ActiveAt(s.observer) then s.(parts := s.StopPart(s.observer.value), busy := Halting(s.busy.op))
    else s.(busy := Ready(s.busy.op, None))
  }

  /** The wait for the observation is over; one that is still stopping refuses the start. */
  function AfterAwaitObserver(s: State): State
    requires s.busy.Halting?
  {
    if s.ActiveAt(s.observer) then s.(busy := Free)
    else s.(busy := Ready(s.busy.op, if s.busy.op.Automate? then s.observer else None))
  }

  function AfterRecheck(s: State): State
    requires s.busy.Ready?
  {
    if s.shutdown then s.(busy := Free) else s.(busy := Starting(s.busy.op, s.busy.stopped))
  }

  function AfterStartObserver(s: State, ok: bool): State
    requires s.busy.Starting? && s.busy.op.Observe?
  {
    if !ok then s.(busy := Free)
    else s.(
      parts := s.parts + [Part(Observing(s.busy.op.target), Live)],
      observer := Some(|s.parts|),
      generation := s.generation + 1,
      pending := None,
      settled := s.Settle(Dropped),
      busy := Free)
  }

  function AfterStartRun(s: State, ok: bool): State
    requires s.busy.Starting? && s.busy.op.Automate?
  {
    if ok then RunPlaced(ObservationLeft(s, s.busy.stopped), s.busy.op.kind) else s.(busy := Free)
  }

  /** A run takes over: the observation it stopped, if any, is to return afterwards. */
  function ObservationLeft(s: State, stopped: Option<nat>): State {
    var t := s.(observer := None);
    if stopped.None? then t
    else if stopped.value < |s.parts| && s.parts[stopped.value].role.Observing? then
      t.(pending := Some(s.parts[stopped.value].role.target), claims := s.claims + [stopped.value])
    else t.(claims := s.claims + [stopped.value])
  }

  function RunPlaced(s: State, kind: Kind): State {
    var run := |s.parts|;
    s.(
      parts := s.parts + [Part(Running(kind), Live)],
      churn := if kind == Churn then Some(run) else s.churn,
      capture := if kind == Capture then Some(run) else s.capture,
      generation := s.generation + 1,
      busy := if s.pending.Some? then Spawning(kind, run) else Free)
  }

  function AfterSpawn(s: State): State
    requires s.busy.Spawning?
  {
    s.(watchers := s.watchers + [Watcher(s.busy.kind, s.busy.runner, s.generation, Waiting)], busy := Free)
  }

  function AfterWatcherEnters(s: State, w: nat): State
    requires w < |s.watchers|
  {
    if s.MayReturn(s.watchers[w]) then s.(busy := Returning(w))
    else s.(watchers := s.watchers[w := s.watchers[w].(watch := Refused)])
  }

  function AfterReturn(s: State, ok: bool): State
    requires s.busy.Returning? && s.busy.watcher < |s.watchers| && s.pending.Some?
  {
    var w := s.busy.watcher;
    if !ok then s.(watchers := s.watchers[w := s.watchers[w].(watch := Failed)], busy := Free)
    else s.(
      parts := s.parts + [Part(Observing(s.pending.value), Live)],
      observer := Some(|s.parts|),
      pending := None,
      watchers := s.watchers[w := s.watchers[w].(watch := Resumed)],
      settled := s.Settle(ReturnedAs(|s.parts|)),
      busy := Free)
  }

  /** `shutdown` holds the transition lock: nothing is pending any more, and what is installed will be stopped. */
  function AfterSnapshot(s: State): State {
    s.(
      generation := s.generation + 1,
      pending := None,
      settled := s.Settle(Dropped),
      closed := true,
      busy := Closing(Ids(s.observer) + Ids(s.churn) + Ids(s.capture)))
  }

  function Ids(part: Option<nat>): seq<nat> {
    if part.Some? then [part.value] else []
  }

  function AfterStopNext(s: State): State
    requires s.busy.Closing?
  {
    if s.busy.rest == [] then s.(busy := Free)
    else s.(parts := s.StopPart(s.busy.rest[0]), busy := Closing(s.busy.rest[1..]))
  }

  function Apply(s: State, e: Event): State
    requires Enabled(s, e)
  {
    match e
    case Begin(op) => AfterBegin(s, op)
    case CheckRuns => AfterCheckRuns(s)
    case HaltObserver => AfterHaltObserver(s)
    case AwaitObserver => AfterAwaitObserver(s)
    case Recheck => AfterRecheck(s)
    case StartObserver(ok) => AfterStartObserver(s, ok)
    case StartRun(ok) => AfterStartRun(s, ok)
    case Spawn => AfterSpawn(s)
    case WatcherEnters(w) => AfterWatcherEnters(s, w)
    case Return(ok) => AfterReturn(s, ok)
    case RaiseFlag => s.(shutdown := true)
    case Snapshot => AfterSnapshot(s)
    case StopNext => AfterStopNext(s)
    case UserStop(part) => s.(parts := s.StopPart(part))
    case Work(part) => s.(parts := s.parts[part := s.parts[part].Progress()])
  }

  ghost predicate Step(s: State, e: Event, t: State) {
    Enabled(s, e) && t == Apply(s, e)
  }

  // ---- what every step keeps ----

  /** The current observation and the current runs are sessions of the right sort. */
  ghost predicate Placed(parts: seq<Part>, observer: Option<nat>, churn: Option<nat>, capture: Option<nat>) {
    (observer.Some? ==> observer.value < |parts| && parts[observer.value].role.Observing?) &&
    (churn.Some? ==> churn.value < |parts| && parts[churn.value].role == Running(Churn)) &&
    (capture.Some? ==> capture.value < |parts| && parts[capture.value].role == Running(Capture))
  }

  /** Only the session started last can be active, and it is installed. */
  ghost predicate OnlyLastActive(parts: seq<Part>, observer: Option<nat>, churn: Option<nat>, capture: Option<nat>) {
    forall i :: 0 <= i < |parts| && parts[i].Active() ==>
      i == |parts| - 1 && (observer == Some(i) || churn == Some(i) || capture == Some(i))
  }

  ghost predicate Quiet(parts: seq<Part>) {
    forall i :: 0 <= i < |parts| ==> !parts[i].Active()
  }

  /** What the holder of the transition lock knows. */
  ghost predicate Holding(s: State) {
    match s.busy
    case Cleared(_) => !s.ActiveAt(s.churn) && !s.ActiveAt(s.capture)
    case Halting(op) => !s.ActiveAt(s.churn) && !s.ActiveAt(s.capture) && s.observer.Some?
    case Ready(op, stopped) => Quiet(s.parts) && (stopped.Some? ==> op.Automate? && stopped == s.observer)
    case Starting(op, stopped) => Quiet(s.parts) && (stopped.Some? ==> op.Automate? && stopped == s.observer)
    case Spawning(kind, runner) =>
      s.pending.Some? && s.Current(kind) == Some(runner) && runner == |s.parts| - 1 &&
      (forall w :: w in s.watchers ==> w.generation < s.generation)
    case Returning(w) =>
      Quiet(s.parts) && s.pending.Some? && w < |s.watchers| && s.watchers[w].watch == Waiting &&
      s.watchers[w].generation == s.generation && s.parts != [] &&
      s.watchers[w].runner == |s.parts| - 1 && s.parts[|s.parts| - 1].phase == Finished
    case Closing(_) => s.closed
    case _ => true
  }

  /** Each claim is settled once and in order, except the last one while it is pending. */
  ghost predicate Conserved(
    parts: seq<Part>, observer: Option<nat>, pending: Option<Target>, claims: seq<nat>, settled: seq<Settlement>)
  {
    |claims| == |settled| + (if pending.Some? then 1 else 0) &&
    (forall i :: 0 <= i < |settled| ==> settled[i].claim == claims[i]) &&
    (forall i, j :: 0 <= i < j < |claims| ==> claims[i] != claims[j]) &&
    (forall i :: 0 <= i < |claims| ==>
      claims[i] < |parts| && parts[claims[i]].role.Observing? && Some(claims[i]) != observer) &&
    (pending.Some? ==> observer.None? && parts[claims[|claims| - 1]].role == Observing(pending.value)) &&
    (forall x :: x in settled && x.fate.ReturnedAs? ==>
      x.fate.observer < |parts| && x.claim < |parts| && parts[x.fate.observer].role == parts[x.claim].role)
  }

  /** Watchers of different runs have different generations; one of the current generation watches the last session. */
  ghost predicate Watched(
    parts: seq<Part>, observer: Option<nat>, churn: Option<nat>, capture: Option<nat>,
    watchers: seq<Watcher>, generation: nat)
  {
    (forall i, j :: 0 <= i < j < |watchers| ==> watchers[i].generation < watchers[j].generation) &&
    (forall w :: w in watchers ==>
      w.runner < |parts| && w.generation <= generation &&
      (w.generation == generation && observer.None? ==>
        w.runner == |parts| - 1 && (if w.kind == Churn then churn else capture) == Some(w.runner)))
  }

  /** A pending return has a watcher of the current generation, which waits or could not start the observation. */
  ghost predicate NotOrphaned(s: State) {
    s.pending.Some? && !s.shutdown && !s.busy.Spawning? ==>
      s.watchers != [] && s.watchers[|s.watchers| - 1].generation == s.generation &&
      s.watchers[|s.watchers| - 1].watch in {Waiting, Failed}
  }

  /** After shutdown's snapshot only its own stops are left to do. */
  ghost predicate ShutDown(s: State) {
    s.closed ==>
      s.shutdown && s.pending.None? && (s.busy.Free? || s.busy.Closing?) &&
      (forall i :: 0 <= i < |s.parts| && s.parts[i].phase == Live ==> s.busy.Closing? && i in s.busy.rest)
  }

  ghost predicate Inv(s: State) {
    Placed(s.parts, s.observer, s.churn, s.capture) &&
    OnlyLastActive(s.parts, s.observer, s.churn, s.capture) &&
    Conserved(s.parts, s.observer, s.pending, s.claims, s.settled) &&
    Watched(s.parts, s.observer, s.churn, s.capture, s.watchers, s.generation) &&
    Holding(s) && NotOrphaned(s) && ShutDown(s)
  }

  // ---- steps of a session: nothing is installed, nothing starts ----

  /** Roles stay, no session becomes active again, and none goes back to Live. */
  ghost predicate PhasesMove(before: seq<Part>, after: seq<Part>) {
    |after| == |before| &&
    forall i :: 0 <= i < |before| ==>
      after[i].role == before[i].role && (after[i].Active() ==> before[i].Active()) &&
      (after[i].phase == Live ==> before[i].phase == Live) &&
      (before[i].phase == Finished ==> after[i].phase == Finished)
  }

  lemma PhasesMoveKeepsInv(s: State, parts: seq<Part>)
    requires Inv(s) && PhasesMove(s.parts, parts)
    ensures Inv(s.(parts := parts))
  {
    var t := s.(parts := parts);
    assert Placed(t.parts, t.observer, t.churn, t.capture);
    assert OnlyLastActive(t.parts, t.observer, t.churn, t.capture);
    assert Conserved(t.parts, t.observer, t.pending, t.claims, t.settled);
    assert Watched(t.parts, t.observer, t.churn, t.capture, t.watchers, t.generation);
  }

  lemma InvPreserved(s: State, e: Event)
    requires Inv(s) && Enabled(s, e)
    ensures Inv(Apply(s, e))
  {
    match e
    case StartObserver(ok) => StartObserverKeepsInv(s, ok);
    case StartRun(ok) => StartRunKeepsInv(s, ok);
    case Return(ok) => ReturnKeepsInv(s, ok);
    case Spawn => SpawnKeepsInv(s);
    case WatcherEnters(w) => WatcherEntersKeepsInv(s, w);
    case Snapshot => SnapshotKeepsInv(s);
    case StopNext => StopNextKeepsInv(s);
    case HaltObserver => HaltObserverKeepsInv(s);
    case UserStop(part) => UserStopKeepsInv(s, part);
    case Work(part) => WorkKeepsInv(s, part);
    case Begin(op) => BeginKeepsInv(s, op);
    case CheckRuns => CheckRunsKeepsInv(s);
    case AwaitObserver => AwaitObserverKeepsInv(s);
    case Recheck => RecheckKeepsInv(s);
    case RaiseFlag =>
  }

  lemma UserStopKeepsInv(s: State, part: nat)
    requires Inv(s) && part < |s.parts|
    ensures Inv(s.(parts := s.StopPart(part)))
  {
    PhasesMoveKeepsInv(s, s.StopPart(part));
  }

  lemma WorkKeepsInv(s: State, part: nat)
    requires Inv(s) && part < |s.parts|
    ensures Inv(s.(parts := s.parts[part := s.parts[part].Progress()]))
  {
    PhasesMoveKeepsInv(s, s.parts[part := s.parts[part].Progress()]);
  }

  lemma BeginKeepsInv(s: State, op: Op)
    requires Inv(s) && s.busy.Free?
    ensures Inv(AfterBegin(s, op))
  {
  }

  lemma CheckRunsKeepsInv(s: State)
    requires Inv(s) && s.busy.Entered?
    ensures Inv(AfterCheckRuns(s))
  {
  }

  lemma AwaitObserverKeepsInv(s: State)
    requires Inv(s) && s.busy.Halting?
    ensures Inv(AfterAwaitObserver(s))
  {
  }

  lemma RecheckKeepsInv(s: State)
    requires Inv(s) && s.busy.Ready?
    ensures Inv(AfterRecheck(s))
  {
  }

  lemma HaltObserverKeepsInv(s: State)
    requires Inv(s) && s.busy.Cleared?
    ensures Inv(AfterHaltObserver(s))
  {
    if s.ActiveAt(s.observer) {
      PhasesMoveKeepsInv(s, s.StopPart(s.observer.value));
    }
  }

  lemma StopNextKeepsInv(s: State)
    requires Inv(s) && s.busy.Closing?
    ensures Inv(AfterStopNext(s))
  {
    if s.busy.rest != [] {
      PhasesMoveKeepsInv(s, s.StopPart(s.busy.rest[0]));
      assert s.busy.rest == [s.busy.rest[0]] + s.busy.rest[1..];
    }
  }

  lemma SpawnKeepsInv(s: State)
    requires Inv(s) && s.busy.Spawning?
    ensures Inv(AfterSpawn(s))
  {
  }

  lemma WatcherEntersKeepsInv(s: State, w: nat)
    requires Inv(s) && Enabled(s, WatcherEnters(w))
    ensures Inv(AfterWatcherEnters(s, w))
  {
    assert s.watchers[w] in s.watchers;
    if !s.MayReturn(s.watchers[w]) {
      RefusalKeepsInv(s, w);
    }
  }

  lemma RefusalKeepsInv(s: State, w: nat)
    requires Inv(s) && s.busy.Free? && w < |s.watchers| && !s.MayReturn(s.watchers[w])
    ensures Inv(s.(watchers := s.watchers[w := s.watchers[w].(watch := Refused)]))
  {
    assert s.watchers[w] in s.watchers;
    WatchChanges(s, w, Refused);
  }

  lemma SnapshotKeepsInv(s: State)
    requires Inv(s) && Enabled(s, Snapshot)
    ensures Inv(AfterSnapshot(s))
  {
  }

  /** An observation starts: the pending return, if any, is settled. */
  lemma SettlingConserves(
    parts: seq<Part>, part: Part, observer: Option<nat>, pending: Option<Target>, claims: seq<nat>,
    settled: seq<Settlement>, fate: Fate)
    requires Conserved(parts, observer, pending, claims, settled)
    requires fate == Dropped || (fate == ReturnedAs(|parts|) && pending.Some? && part.role == Observing(pending.value))
    ensures Conserved(parts + [part], Some(|parts|), None, claims,
      if pending.Some? then settled + [Settlement(claims[|claims| - 1], fate)] else settled)
  {
    var all := parts + [part];
    assert forall i :: 0 <= i < |parts| ==> all[i] == parts[i];
    if pending.Some? {
      var now := Settlement(claims[|claims| - 1], fate);
      forall x | x in settled + [now] && x.fate.ReturnedAs?
        ensures x.fate.observer < |all| && x.claim < |all| && all[x.fate.observer].role == all[x.claim].role
      {
        assert x in settled || x == now;
      }
    }
  }

  /** A run starts: the observation it stopped becomes the pending return, and no earlier one is overwritten. */
  lemma ClaimingConserves(
    parts: seq<Part>, part: Part, observer: Option<nat>, pending: Option<Target>, claims: seq<nat>,
    settled: seq<Settlement>, stopped: Option<nat>)
    requires Conserved(parts, observer, pending, claims, settled)
    requires stopped.Some? ==> stopped == observer && stopped.value < |parts| && parts[stopped.value].role.Observing?
    ensures Conserved(parts + [part], None,
      if stopped.Some? then Some(parts[stopped.value].role.target) else pending,
      if stopped.Some? then claims + [stopped.value] else claims, settled)
  {
  }

  lemma StartObserverKeepsInv(s: State, ok: bool)
    requires Inv(s) && Enabled(s, StartObserver(ok))
    ensures Inv(AfterStartObserver(s, ok))
  {
    var part := Part(Observing(s.busy.op.target), Live);
    SettlingConserves(s.parts, part, s.observer, s.pending, s.claims, s.settled, Dropped);
    if ok {
      ObserverInstalledKeepsInv(s, part);
    }
  }

  lemma ObserverInstalledKeepsInv(s: State, part: Part)
    requires Quiet(s.parts) && !s.closed && part.role.Observing?
    requires Placed(s.parts, s.observer, s.churn, s.capture)
    requires Conserved(s.parts + [part], Some(|s.parts|), None, s.claims, s.Settle(Dropped))
    requires Watched(s.parts, s.observer, s.churn, s.capture, s.watchers, s.generation)
    ensures Inv(s.(parts := s.parts + [part], observer := Some(|s.parts|), generation := s.generation + 1,
                   pending := None, settled := s.Settle(Dropped), busy := Free))
  {
  }

  lemma StartRunKeepsInv(s: State, ok: bool)
    requires Inv(s) && Enabled(s, StartRun(ok))
    ensures Inv(AfterStartRun(s, ok))
  {
    var kind, stopped := s.busy.op.kind, s.busy.stopped;
    var u := ObservationLeft(s, stopped);
    ClaimingConserves(s.parts, Part(Running(kind), Live), s.observer, s.pending, s.claims, s.settled, stopped);
    assert s.closed == false;
    if ok {
      PlacingRunKeepsInv(u, kind);
    }
  }

  lemma PlacingRunKeepsInv(s: State, kind: Kind)
    requires s.observer.None? && !s.closed && Quiet(s.parts)
    requires Placed(s.parts, None, s.churn, s.capture)
    requires Conserved(s.parts + [Part(Running(kind), Live)], None, s.pending, s.claims, s.settled)
    requires forall w :: w in s.watchers ==> w.runner < |s.parts| && w.generation <= s.generation
    requires forall i, j :: 0 <= i < j < |s.watchers| ==> s.watchers[i].generation < s.watchers[j].generation
    ensures Inv(RunPlaced(s, kind))
  {
  }

  lemma ReturnKeepsInv(s: State, ok: bool)
    requires Inv(s) && Enabled(s, Return(ok))
    ensures Inv(AfterReturn(s, ok))
  {
    var w := s.busy.watcher;
    WatchChanges(s, w, if ok then Resumed else Failed);
    SettlingConserves(s.parts, Part(Observing(s.pending.value), Live), s.observer, s.pending, s.claims, s.settled,
                      ReturnedAs(|s.parts|));
  }

  lemma WatchChanges(s: State, w: nat, watch: Watch)
    requires w < |s.watchers| && Watched(s.parts, s.observer, s.churn, s.capture, s.watchers, s.generation)
    ensures Watched(s.parts, s.observer, s.churn, s.capture,
                    s.watchers[w := s.watchers[w].(watch := watch)], s.generation)
  {
    var after := s.watchers[w := s.watchers[w].(watch := watch)];
    assert s.watchers[w] in s.watchers;
    forall x | x in after
      ensures exists y :: y in s.watchers && x == y.(watch := x.watch)
    {
      var i :| 0 <= i < |after| && after[i] == x;
      assert s.watchers[i] in s.watchers;
    }
  }

  lemma InitIsSafe()
    ensures Inv(Init())
  {
  }

  // ---- whole runs ----

  lemma RunIsSafe(states: seq<State>, events: seq<Event>, i: nat)
    requires IsRun(Init(), Step, states, events) && i < |states|
    ensures Inv(states[i])
  {
    InitIsSafe();
    forall s, e, t | Inv(s) && Step(s, e, t)
      ensures Inv(t)
    {
      InvPreserved(s, e);
    }
    Always(Init(), Step, Inv, states, events, i);
  }

  /** At most one operating mode is active in every reachable state, over everything that ever started. */
  lemma OneModeAtATime(states: seq<State>, events: seq<Event>, i: nat, a: nat, b: nat)
    requires IsRun(Init(), Step, states, events) && i < |states|
    requires a < |states[i].parts| && states[i].parts[a].Active()
    requires b < |states[i].parts| && states[i].parts[b].Active()
    ensures a == b
    ensures Some(a) in {states[i].observer, states[i].churn, states[i].capture}
  {
    RunIsSafe(states, events, i);
  }

  /** One step only adds to the history, and changes no session's role. */
  ghost predicate Grows(s: State, t: State) {
    s.claims <= t.claims && s.settled <= t.settled && |s.parts| <= |t.parts| &&
    (forall i :: 0 <= i < |s.parts| ==> t.parts[i].role == s.parts[i].role) &&
    (s.closed ==> t.closed && |t.parts| == |s.parts|)
  }

  lemma StepGrows(s: State, e: Event)
    requires ShutDown(s) && Enabled(s, e)
    ensures Grows(s, Apply(s, e))
  {
  }

  lemma RunStepGrows(states: seq<State>, events: seq<Event>, i: nat)
    requires IsRun(Init(), Step, states, events) && i < |events|
    ensures Grows(states[i], states[i + 1])
  {
    RunIsSafe(states, events, i);
    assert StepAt(Step, states, events, i);
    StepGrows(states[i], events[i]);
  }

  lemma {:induction false} RunGrows(states: seq<State>, events: seq<Event>, i: nat, j: nat)
    requires IsRun(Init(), Step, states, events) && i <= j < |states|
    ensures Grows(states[i], states[j])
    decreases j
  {
    if i == j {
    } else {
      RunGrows(states, events, i, j - 1);
      RunStepGrows(states, events, j - 1);
    }
  }

  /**
   Every observation stopped for an automated run is accounted for: returned once, to
   its own target, dropped once, or still pending. None is ever claimed twice.
   */
  lemma ReturnsAreConserved(states: seq<State>, events: seq<Event>, i: nat)
    requires IsRun(Init(), Step, states, events) && i < |states|
    ensures var s := states[i];
      |s.claims| == |s.settled| + (if s.pending.Some? then 1 else 0) &&
      (forall k :: 0 <= k < |s.settled| ==> s.settled[k].claim == s.claims[k]) &&
      (forall j, k :: 0 <= j < k < |s.claims| ==> s.claims[j] != s.claims[k]) &&
      (forall x :: x in s.settled && x.fate.ReturnedAs? ==>
        x.fate.observer < |s.parts| && x.claim < |s.parts| &&
        s.parts[x.fate.observer].role == s.parts[x.claim].role)
  {
    RunIsSafe(states, events, i);
  }

  /** A pending return survives any number of chained automated runs: until it is settled, it does not change. */
  lemma PendingReturnSurvives(states: seq<State>, events: seq<Event>, i: nat, j: nat)
    requires IsRun(Init(), Step, states, events) && i <= j < |states|
    requires states[i].pending.Some? && |states[j].settled| == |states[i].settled|
    ensures states[j].pending == states[i].pending && states[j].claims == states[i].claims
    ensures states[j].observer.None?
  {
    RunIsSafe(states, events, i);
    RunIsSafe(states, events, j);
    RunGrows(states, events, i, j);
    PendingIsLastClaim(states[i]);
    PendingIsLastClaim(states[j]);
    assert states[j].claims == states[i].claims;
  }

  lemma PendingIsLastClaim(s: State)
    requires Inv(s)
    ensures |s.claims| == |s.settled| + (if s.pending.Some? then 1 else 0)
    ensures s.pending.Some? ==> s.claims != [] && s.claims[|s.claims| - 1] < |s.parts| && s.observer.None? &&
                                s.parts[s.claims[|s.claims| - 1]].role == Observing(s.pending.value)
  {
  }

  /** This watcher's run has finished, and no other watcher has the current generation. */
  ghost predicate TheCurrentWatcher(s: State, w: nat) {
    w < |s.watchers| && s.watchers[w].watch == Waiting && s.watchers[w].generation == s.generation &&
    s.watchers[w].runner < |s.parts| && s.parts[s.watchers[w].runner].phase == Finished &&
    (forall k :: 0 <= k < |s.watchers| && s.watchers[k].generation == s.generation ==> k == w)
  }

  /** Only the watcher of the current generation, and only after its run has finished, brings an observation back. */
  lemma OnlyTheCurrentWatcherReturns(states: seq<State>, events: seq<Event>, i: nat)
    requires IsRun(Init(), Step, states, events) && i < |events|
    requires |states[i + 1].settled| > |states[i].settled|
    requires states[i + 1].settled[|states[i].settled|].fate.ReturnedAs?
    ensures events[i] == Return(true) && states[i].busy.Returning?
    ensures TheCurrentWatcher(states[i], states[i].busy.watcher)
  {
    RunIsSafe(states, events, i);
    assert StepAt(Step, states, events, i);
    OnlyReturnSettlesSo(states[i], events[i]);
  }

  lemma OnlyReturnSettlesSo(s: State, e: Event)
    requires Enabled(s, e) && Inv(s)
    requires |Apply(s, e).settled| > |s.settled| && Apply(s, e).settled[|s.settled|].fate.ReturnedAs?
    ensures e == Return(true) && s.busy.Returning? && TheCurrentWatcher(s, s.busy.watcher)
  {
    SettlesByReturn(s, e);
  }

  lemma SettlesByReturn(s: State, e: Event)
    requires Enabled(s, e)
    requires |Apply(s, e).settled| > |s.settled| && Apply(s, e).settled[|s.settled|].fate.ReturnedAs?
    ensures e == Return(true)
  {
  }

  /**
   When the lock is free and a return is pending, some watcher can still bring it back
   exactly if the start of the observation has not failed; then the two steps of that
   watcher, once its run has finished, do bring it back.
   */
  lemma ReturnComesIffNotFailed(s: State)
    requires Inv(s) && s.pending.Some? && !s.shutdown && s.busy.Free?
    ensures s.watchers != []
    ensures (exists w :: w in s.watchers && w.watch == Waiting && s.MayReturn(w))
            <==> s.watchers[|s.watchers| - 1].watch == Waiting
  {
    var last := s.watchers[|s.watchers| - 1];
    assert last in s.watchers;
    if last.watch == Waiting {
      assert s.MayReturn(last);
    }
    forall w | w in s.watchers && w.watch == Waiting && s.MayReturn(w)
      ensures last.watch == Waiting
    {
      var k :| 0 <= k < |s.watchers| && s.watchers[k] == w;
      assert k == |s.watchers| - 1;
    }
  }

  lemma WatcherBringsItBack(s: State)
    requires Inv(s) && s.pending.Some? && !s.shutdown && s.busy.Free? && s.watchers != []
    requires var last := s.watchers[|s.watchers| - 1];
      last.watch == Waiting && last.runner < |s.parts| && s.parts[last.runner].phase == Finished
    ensures var enters := WatcherEnters(|s.watchers| - 1);
      Enabled(s, enters) && Enabled(Apply(s, enters), Return(true)) &&
      var t := Apply(Apply(s, enters), Return(true));
      t.observer == Some(|s.parts|) && t.parts == s.parts + [Part(Observing(s.pending.value), Live)] && t.pending.None?
  {
    var last := s.watchers[|s.watchers| - 1];
    assert last in s.watchers;
    assert s.MayReturn(last);
  }

  /** A start path between telling an observation to stop and having installed, or given up, what it starts. */
  predicate Underway(busy: Busy) {
    busy.Halting? || busy.Ready? || busy.Starting?
  }

  /** From s on, observation o has been told to stop for a run of the given kind, and nothing else has come of it. */
  ghost predicate Giving(s: State, t: State, kind: Kind, o: nat) {
    t.observer == Some(o) && t.claims == s.claims && t.pending.None? && |t.parts| == |s.parts| &&
    o < |s.parts| && t.parts[o].role == s.parts[o].role && t.parts[o].role.Observing? && t.parts[o].phase != Live &&
    (t.busy == Halting(Automate(kind)) || t.busy == Ready(Automate(kind), Some(o)) ||
     t.busy == Starting(Automate(kind), Some(o)))
  }

  /** The run is installed, and the observation is to return. */
  ghost predicate Promised(s: State, t: State, kind: Kind, o: nat) {
    |t.parts| == |s.parts| + 1 && t.parts[|s.parts|].role == Running(kind) && t.observer.None? &&
    t.claims == s.claims + [o] && o < |s.parts| && t.pending.Some? && s.parts[o].role == Observing(t.pending.value)
  }

  /** The start was given up, and the observation is stopping or stopped without a return. */
  ghost predicate Lost(s: State, t: State, o: nat) {
    |t.parts| == |s.parts| && t.observer == Some(o) && o < |t.parts| && t.parts[o].phase != Live &&
    t.claims == s.claims && t.pending.None?
  }

  /** Why a start is given up: the wait ran out, the second look at the shutdown flag, or the start itself. */
  predicate GivenUp(s: State, e: Event) {
    (e == AwaitObserver && s.ActiveAt(s.observer)) || (e == Recheck && s.shutdown) || e == StartRun(false)
  }

  lemma GivingStep(s: State, t: State, e: Event, kind: Kind, o: nat)
    requires Enabled(t, e) && Giving(s, t, kind, o)
    ensures var u := Apply(t, e);
      if Underway(u.busy) then Giving(s, u, kind, o)
      else if GivenUp(t, e) then Lost(s, u, o) else e == StartRun(true) && Promised(s, u, kind, o)
  {
  }

  /** While the start is under way, it knows which observation it told to stop. */
  lemma {:induction false} GivingStays(states: seq<State>, events: seq<Event>, i: nat, j: nat, kind: Kind, o: nat)
    requires IsRun(Init(), Step, states, events) && i < j < |states|
    requires events[i] == HaltObserver && states[i].busy == Cleared(Automate(kind))
    requires states[i].observer == Some(o) && states[i].ActiveAt(Some(o))
    requires forall k :: i < k <= j ==> Underway(states[k].busy)
    ensures Giving(states[i], states[j], kind, o)
    decreases j
  {
    assert StepAt(Step, states, events, j - 1);
    if j == i + 1 {
      RunIsSafe(states, events, i);
      GivingStarts(states[i], kind, o);
    } else {
      GivingStays(states, events, i, j - 1, kind, o);
      GivingStep(states[i], states[j - 1], events[j - 1], kind, o);
    }
  }

  lemma GivingStarts(s: State, kind: Kind, o: nat)
    requires Inv(s) && s.busy == Cleared(Automate(kind)) && s.observer == Some(o) && s.ActiveAt(Some(o))
    ensures Giving(s, AfterHaltObserver(s), kind, o)
  {
  }

  /**
   An observation that was told to stop for an automated run is promised a return if and
   only if that run starts. Otherwise it is lost: the wait for it ran out, the second look
   at the shutdown flag refused the start, or the start failed.
   */
  lemma ReturnPromisedIffRunStarts(
    states: seq<State>, events: seq<Event>, i: nat, j: nat, kind: Kind, o: nat)
    requires IsRun(Init(), Step, states, events) && i + 1 < j < |states|
    requires events[i] == HaltObserver && states[i].busy == Cleared(Automate(kind))
    requires states[i].observer == Some(o) && states[i].ActiveAt(Some(o))
    requires (forall k :: i < k < j ==> Underway(states[k].busy)) && !Underway(states[j].busy)
    ensures states[j].pending.Some? <==> |states[j].parts| > |states[i].parts|
    ensures states[j].pending.Some? <==> !GivenUp(states[j - 1], events[j - 1])
    ensures if states[j].pending.Some? then Promised(states[i], states[j], kind, o) else Lost(states[i], states[j], o)
  {
    GivingStays(states, events, i, j - 1, kind, o);
    assert StepAt(Step, states, events, j - 1);
    GivingStep(states[i], states[j - 1], events[j - 1], kind, o);
  }

  /**
   After shutdown has taken its snapshot nothing starts; when it lets go of the lock,
   every session that is still active has been asked to stop.
   */
  lemma NothingStartsAfterShutdown(states: seq<State>, events: seq<Event>, i: nat, j: nat)
    requires IsRun(Init(), Step, states, events) && i <= j < |states| && states[i].closed
    ensures |states[j].parts| == |states[i].parts| && states[j].pending.None?
    ensures forall k :: 0 <= k < |states[j].parts| && states[j].parts[k].Active() && states[j].busy.Free? ==>
      states[j].parts[k].phase == Stopping
  {
    RunIsSafe(states, events, j);
    RunGrows(states, events, i, j);
  }
}
