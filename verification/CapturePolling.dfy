/**
 The polling schedule of a thermal capture, and the record budget it is promised to
 keep however late the device answers. Clock readings are real numbers.
 */
module CapturePolling {
  import opened Common

  const MAX_ANNOTATIONS: nat := 1000

  datatype Config = Config(duration: real, stateInterval: real, healthInterval: real) {
    /** Part of what `validate` demands. */
    predicate Positive() {
      duration > 0.0 && stateInterval > 0.0 && healthInterval > 0.0
    }
  }

  function Ceil(x: real): int {
    -((-x).Floor)
  }

  /** `estimated_records`: the budget of retained records. */
  function EstimatedRecords(c: Config): int
    requires c.Positive()
  {
    (Ceil(c.duration / c.stateInterval) + 2 + (Ceil(c.duration / c.healthInterval) + 2) + 2) * 2 + 4
  }

  /**
   How many annotations a recorder of the given size leaves room for; it is refused if it is
   smaller than the budget.
   */
  function AnnotationLimit(c: Config, maxRecords: int): int
    requires c.Positive()
  {
    Min(MAX_ANNOTATIONS, maxRecords - EstimatedRecords(c))
  }

  /** A runner that makes its own recorder makes it large enough for a thousand annotations. */
  lemma OwnRecorderLimit(c: Config)
    requires c.Positive()
    ensures AnnotationLimit(c, EstimatedRecords(c) + 1000) == 1000
  {
  }

  /**
   How one fetch ends: a request and its answer or error are recorded, or an exception escapes
   before the answer is.
   */
  datatype Fetch = Recorded | Raises(requested: bool) {
    function Records(): nat {
      if Recorded? then 2 else if requested then 1 else 0
    }
  }

  /** What one turn of the loop reads: the clock before and after the state sample, and the cancel flag twice. */
  datatype Tick = Tick(cancelled: bool, now: real, after: real, cancelledLater: bool)

  /** Clock readings never go back. */
  ghost predicate Rises(started: real, ticks: seq<Tick>) {
    (ticks != [] ==> started <= ticks[0].now) &&
    (forall i :: 0 <= i < |ticks| ==> ticks[i].now <= ticks[i].after) &&
    (forall i, j :: 0 <= i < j < |ticks| ==> ticks[i].after <= ticks[j].now)
  }

  datatype Why = Polling | Cancelled | Deadline | Raised

  datatype Schedule = Schedule(nextState: real, nextHealth: real, states: nat, healths: nat, why: Why) {
    /** The sequence number of the last fetch; the first one was made before the loop. */
    function Fetched(): nat {
      1 + states + healths
    }
  }

  /** When a sample is due again: one interval later, or one interval from now if that has passed. */
  function DueAgain(due: real, interval: real, now: real): (r: real)
    requires interval > 0.0 && due <= now
    ensures due + interval <= r && now < r
  {
    if due + interval <= now then now + interval else due + interval
  }

  function StateTurn(c: Config, tick: Tick, s: Schedule, fetch: nat -> Fetch): Schedule
    requires c.Positive()
  {
    if tick.now < s.nextState then s
    else
      var t := s.(states := s.states + 1);
      if fetch(t.Fetched()).Raises? then t.(why := Raised)
      else t.(nextState := DueAgain(s.nextState, c.stateInterval, tick.now))
  }

  function HealthTurn(c: Config, tick: Tick, s: Schedule, fetch: nat -> Fetch): Schedule
    requires c.Positive()
  {
    if tick.after < s.nextHealth || tick.cancelledLater then s
    else
      var t := s.(healths := s.healths + 1);
      if fetch(t.Fetched()).Raises? then t.(why := Raised)
      else t.(nextHealth := DueAgain(s.nextHealth, c.healthInterval, tick.after))
  }

  /** One turn of the loop. */
  function Turn(c: Config, deadline: real, tick: Tick, s: Schedule, fetch: nat -> Fetch): Schedule
    requires c.Positive()
  {
    if tick.cancelled then s.(why := Cancelled)
    else if tick.now >= deadline then s.(why := Deadline)
    else
      var t := StateTurn(c, tick, s, fetch);
      if t.why == Raised then t else HealthTurn(c, tick, t, fetch)
  }

  /** The schedule after the turns for which the clock has been read. */
  function Polled(c: Config, started: real, ticks: seq<Tick>, fetch: nat -> Fetch): Schedule
    requires c.Positive()
  {
    if ticks == [] then Schedule(started, started, 0, 0, Polling)
    else
      var s := Polled(c, started, ticks[..|ticks| - 1], fetch);
      if s.why != Polling then s else Turn(c, started + c.duration, ticks[|ticks| - 1], s, fetch)
  }

  /** The loop of `_run`. */
  method Poll(c: Config, started: real, ticks: seq<Tick>, fetch: nat -> Fetch) returns (s: Schedule)
    requires c.Positive()
    ensures s == Polled(c, started, ticks, fetch)
  {
    var deadline := started + c.duration;
    var nextState, nextHealth, states, healths, why := started, started, 0, 0, Polling;
    var i := 0;
    while i < |ticks| && why == Polling
      invariant 0 <= i <= |ticks|
      invariant Schedule(nextState, nextHealth, states, healths, why) == Polled(c, started, ticks[..i], fetch)
      invariant i < |ticks| && why != Polling ==>
        Polled(c, started, ticks, fetch) == Polled(c, started, ticks[..i], fetch)
    {
      var tick := ticks[i];
      assert ticks[..i + 1][..i] == ticks[..i];
      if tick.cancelled {
        why := Cancelled;
      } else if tick.now >= deadline {
        why := Deadline;
      } else {
        if tick.now >= nextState {
          states := states + 1;
          if fetch(1 + states + healths).Raises? {
            why := Raised;
          } else {
            nextState := nextState + c.stateInterval;
            if nextState <= tick.now {
              nextState := tick.now + c.stateInterval;
            }
          }
        }
        if why == Polling && tick.after >= nextHealth && !tick.cancelledLater {
          healths := healths + 1;
          if fetch(1 + states + healths).Raises? {
            why := Raised;
          } else {
            nextHealth := nextHealth + c.healthInterval;
            if nextHealth <= tick.after {
              nextHealth := tick.after + c.healthInterval;
            }
          }
        }
      }
      i := i + 1;
      if why != Polling {
        OverIsOver(c, started, ticks, i, fetch);
      }
    }
    assert ticks[..|ticks|] == ticks;
    s := Schedule(nextState, nextHealth, states, healths, why);
  }

  lemma {:induction false} OverIsOver(c: Config, started: real, ticks: seq<Tick>, i: nat, fetch: nat -> Fetch)
    requires c.Positive() && i <= |ticks| && Polled(c, started, ticks[..i], fetch).why != Polling
    ensures Polled(c, started, ticks, fetch) == Polled(c, started, ticks[..i], fetch)
    decreases |ticks|
  {
    if i == |ticks| {
      assert ticks[..i] == ticks;
    } else {
      var init := ticks[..|ticks| - 1];
      assert init[..i] == ticks[..i];
      OverIsOver(c, started, init, i, fetch);
    }
  }

  // ---- the cadence ----

  /** When a sample of the loop was due, the clock reading it is compared with, in turn i. */
  function Reading(ticks: seq<Tick>, i: nat, health: bool): real
    requires i < |ticks|
  {
    if health then ticks[i].after else ticks[i].now
  }

  /** Every turn reads the clock less than one interval after the turn before it, and no turn sees a cancel flag. */
  ghost predicate Punctual(started: real, ticks: seq<Tick>, interval: real, health: bool) {
    (forall i :: 0 <= i < |ticks| ==> !ticks[i].cancelled && !ticks[i].cancelledLater) &&
    (ticks != [] ==> started <= Reading(ticks, 0, health) < started + interval) &&
    (forall i :: 0 < i < |ticks| ==>
      Reading(ticks, i - 1, health) <= Reading(ticks, i, health) < Reading(ticks, i - 1, health) + interval)
  }

  lemma PunctualInit(started: real, ticks: seq<Tick>, interval: real, health: bool)
    requires ticks != [] && Punctual(started, ticks, interval, health)
    ensures var init := ticks[..|ticks| - 1];
      Punctual(started, init, interval, health) &&
      started <= Reading(ticks, |ticks| - 1, health) &&
      (init == [] ==> Reading(ticks, 0, health) < started + interval) &&
      (init != [] ==>
        Reading(init, |init| - 1, health) <= Reading(ticks, |init|, health) <
          Reading(init, |init| - 1, health) + interval)
  {
    var init := ticks[..|ticks| - 1];
    assert forall i :: 0 <= i < |init| ==> Reading(init, i, health) == Reading(ticks, i, health);
    NotBeforeStart(started, ticks, interval, health, |ticks| - 1);
  }

  lemma {:induction false} NotBeforeStart(started: real, ticks: seq<Tick>, interval: real, health: bool, i: nat)
    requires i < |ticks| && Punctual(started, ticks, interval, health)
    ensures started <= Reading(ticks, i, health)
    decreases i
  {
    if i == 0 {
    } else {
      NotBeforeStart(started, ticks, interval, health, i - 1);
    }
  }

  /** Sample number n is due at exactly n intervals after the start, and all that were due by now have been made. */
  ghost predicate InTime(started: real, interval: real, due: real, samples: nat, now: real) {
    due == Due(started, interval, samples) && samples > 0 && Due(started, interval, samples - 1) <= now < due
  }

  /**
   A punctual loop does not drift: state sample number n is due at exactly n intervals after
   the start, and by its last turn the loop has made just the samples that were due.
   */
  lemma {:induction false} StatesKeepTime(c: Config, started: real, ticks: seq<Tick>, fetch: nat -> Fetch)
    requires c.Positive() && ticks != [] && Punctual(started, ticks, c.stateInterval, false)
    requires Polled(c, started, ticks, fetch).why == Polling
    ensures var s := Polled(c, started, ticks, fetch);
      InTime(started, c.stateInterval, s.nextState, s.states, ticks[|ticks| - 1].now)
  {
    var init := ticks[..|ticks| - 1];
    PunctualInit(started, ticks, c.stateInterval, false);
    if init != [] {
      StatesKeepTime(c, started, init, fetch);
    }
    assert Due(started, c.stateInterval, 1) == started + c.stateInterval;
  }

  /** The same for the health samples. */
  lemma {:induction false} HealthsKeepTime(c: Config, started: real, ticks: seq<Tick>, fetch: nat -> Fetch)
    requires c.Positive() && ticks != [] && Punctual(started, ticks, c.healthInterval, true)
    requires Polled(c, started, ticks, fetch).why == Polling
    ensures var s := Polled(c, started, ticks, fetch);
      InTime(started, c.healthInterval, s.nextHealth, s.healths, ticks[|ticks| - 1].after)
  {
    var init := ticks[..|ticks| - 1];
    PunctualInit(started, ticks, c.healthInterval, true);
    if init != [] {
      HealthsKeepTime(c, started, init, fetch);
    }
    assert Due(started, c.healthInterval, 1) == started + c.healthInterval;
  }

  /** A loop that is late by an interval or more does not catch up: the next sample is due one interval from now. */
  lemma LateSamplesAreSkipped(c: Config, tick: Tick, s: Schedule, fetch: nat -> Fetch)
    requires c.Positive() && fetch(s.Fetched() + 1).Recorded?
    ensures tick.now >= s.nextState + c.stateInterval ==>
      StateTurn(c, tick, s, fetch) == s.(states := s.states + 1, nextState := tick.now + c.stateInterval)
    ensures tick.after >= s.nextHealth + c.healthInterval && !tick.cancelledLater ==>
      HealthTurn(c, tick, s, fetch) == s.(healths := s.healths + 1, nextHealth := tick.after + c.healthInterval)
  {
  }

  /** What one turn samples: nothing once it sees the flag or the deadline, and otherwise just what is due. */
  lemma TurnSamples(c: Config, deadline: real, tick: Tick, s: Schedule, fetch: nat -> Fetch)
    requires c.Positive() && s.why == Polling
    ensures var t := Turn(c, deadline, tick, s, fetch);
      if tick.cancelled then t == s.(why := Cancelled)
      else if tick.now >= deadline then t == s.(why := Deadline)
      else
        t.why in {Polling, Raised} && t.states == s.states + (if tick.now >= s.nextState then 1 else 0) &&
        (t.why == Polling ==>
          t.healths == s.healths + (if tick.after >= s.nextHealth && !tick.cancelledLater then 1 else 0))
  {
  }

  // ---- the bounds ----

  /** The earliest time at which sample number n can be due, counting from 0. */
  function Due(started: real, interval: real, n: nat): real {
    if n == 0 then started else Due(started, interval, n - 1) + interval
  }

  lemma {:induction false} DueIsMultiple(started: real, interval: real, n: nat)
    ensures Due(started, interval, n) == started + n as real * interval
  {
    if n == 0 {
    } else {
      DueIsMultiple(started, interval, n - 1);
      assert n as real == (n - 1) as real + 1.0;
      assert n as real * interval == (n - 1) as real * interval + interval;
    }
  }

  /** A sample that is due before the deadline is one of the first ceil(total / interval). */
  lemma DueBeforeDeadline(started: real, interval: real, total: real, n: nat)
    requires interval > 0.0 && Due(started, interval, n) < started + total
    ensures n + 1 <= Ceil(total / interval)
  {
    DueIsMultiple(started, interval, n);
    BelowQuotient(n as real, total, interval);
    CeilAbove(total / interval, n);
  }

  lemma BelowQuotient(n: real, total: real, interval: real)
    requires interval > 0.0 && n * interval < total
    ensures n < total / interval
  {
    var q := total / interval;
    assert q * interval == total;
    if n >= q {
      assert n * interval >= q * interval;
    }
  }

  lemma CeilAbove(x: real, n: nat)
    requires n as real < x
    ensures n + 1 <= Ceil(x)
  {
    assert (-x).Floor as real <= -x;
  }

  /** How many samples there can be: after one health sample too many the deadline has passed. */
  ghost predicate Within(c: Config, started: real, last: real, s: Schedule, states: int, healths: int) {
    s.states <= states && s.healths <= healths + 1 &&
    (s.why == Polling ==>
      s.nextState >= Due(started, c.stateInterval, s.states) &&
      s.nextHealth >= Due(started, c.healthInterval, s.healths) &&
      (s.healths > healths ==> last >= started + c.duration))
  }

  /**
   However long the fetches take: at most ceil(duration / interval) scheduled state
   samples, and at most one more scheduled health sample than the same count.
   */
  lemma SamplesAreBounded(c: Config, started: real, ticks: seq<Tick>, fetch: nat -> Fetch)
    requires c.Positive() && Rises(started, ticks)
    ensures var s := Polled(c, started, ticks, fetch);
      s.states <= Ceil(c.duration / c.stateInterval) && s.healths <= Ceil(c.duration / c.healthInterval) + 1
  {
    DueBeforeDeadline(started, c.stateInterval, c.duration, 0);
    DueBeforeDeadline(started, c.healthInterval, c.duration, 0);
    PollingIsWithin(c, started, ticks, fetch, Ceil(c.duration / c.stateInterval), Ceil(c.duration / c.healthInterval));
  }

  lemma {:induction false} PollingIsWithin(
    c: Config, started: real, ticks: seq<Tick>, fetch: nat -> Fetch, states: int, healths: int)
    requires c.Positive() && Rises(started, ticks)
    requires states == Ceil(c.duration / c.stateInterval) >= 0 && healths == Ceil(c.duration / c.healthInterval) >= 0
    ensures Within(c, started, if ticks == [] then started else ticks[|ticks| - 1].after,
                   Polled(c, started, ticks, fetch), states, healths)
  {
    if ticks == [] {
    } else {
      var init, tick := ticks[..|ticks| - 1], ticks[|ticks| - 1];
      PollingIsWithin(c, started, init, fetch, states, healths);
      var s := Polled(c, started, init, fetch);
      if s.why == Polling && !tick.cancelled && tick.now < started + c.duration {
        if Due(started, c.stateInterval, s.states) < started + c.duration {
          DueBeforeDeadline(started, c.stateInterval, c.duration, s.states);
        }
        if Due(started, c.healthInterval, s.healths) < started + c.duration {
          DueBeforeDeadline(started, c.healthInterval, c.duration, s.healths);
        }
        var before := if init == [] then started else init[|init| - 1].after;
        TurnIsWithin(c, started, before, tick, s, fetch, states, healths);
      }
    }
  }

  lemma TurnIsWithin(
    c: Config, started: real, last: real, tick: Tick, s: Schedule, fetch: nat -> Fetch, states: int, healths: int)
    requires c.Positive() && Within(c, started, last, s, states, healths) && s.why == Polling
    requires Due(started, c.stateInterval, s.states) < started + c.duration ==> s.states + 1 <= states
    requires Due(started, c.healthInterval, s.healths) < started + c.duration ==> s.healths + 1 <= healths
    requires !tick.cancelled && last <= tick.now < started + c.duration && tick.now <= tick.after
    ensures Within(c, started, tick.after, Turn(c, started + c.duration, tick, s, fetch), states, healths)
  {
    var t := StateTurn(c, tick, s, fetch);
    if t.why != Raised {
      assert t.nextState >= Due(started, c.stateInterval, t.states);
    }
  }

  /** The extra health sample does happen: the deadline is not looked at again after a slow state sample. */
  lemma OneMoreHealthSampleHappens(fetch: nat -> Fetch)
    requires forall k :: fetch(k) == Recorded
    ensures var c, ticks := Config(10.0, 6.0, 5.0),
                [Tick(false, 0.0, 0.0, false), Tick(false, 5.0, 5.0, false), Tick(false, 6.0, 10.0, false)];
      Rises(0.0, ticks) && Polled(c, 0.0, ticks, fetch).healths == Ceil(c.duration / c.healthInterval) + 1
  {
    var c := Config(10.0, 6.0, 5.0);
    var t1, t2, t3 := Tick(false, 0.0, 0.0, false), Tick(false, 5.0, 5.0, false), Tick(false, 6.0, 10.0, false);
    var ticks := [t1, t2, t3];
    assert ticks[..2] == [t1, t2] && [t1, t2][..1] == [t1] && [t1][..0] == [];
    assert Polled(c, 0.0, [t1], fetch) == Schedule(6.0, 5.0, 1, 1, Polling);
    assert Polled(c, 0.0, [t1, t2], fetch) == Schedule(6.0, 10.0, 1, 2, Polling);
    assert c.duration / c.healthInterval == 2.0;
  }

  // ---- the record budget ----

  /**
   The estimate is four records more than a run can make: its two lifecycle records, and two
   for each fetch of the start, of both schedules with the extra health sample, and of the end.
   */
  lemma EstimateIsFourMore(c: Config)
    requires c.Positive()
    ensures EstimatedRecords(c) ==
      2 + 2 * (1 + Ceil(c.duration / c.stateInterval) + (Ceil(c.duration / c.healthInterval) + 1) + 3) + 4
  {
  }

  /** An exception ended the loop exactly if it escaped from its last fetch. */
  lemma {:induction false} RaisedByLast(c: Config, started: real, ticks: seq<Tick>, fetch: nat -> Fetch)
    requires c.Positive() && fetch(1).Recorded?
    ensures var s := Polled(c, started, ticks, fetch); fetch(s.Fetched()).Raises? <==> s.why == Raised
  {
    if ticks == [] {
    } else {
      var init, tick := ticks[..|ticks| - 1], ticks[|ticks| - 1];
      RaisedByLast(c, started, init, fetch);
      var s := Polled(c, started, init, fetch);
      if s.why == Polling {
        TurnRaises(c, started + c.duration, tick, s, fetch);
      }
    }
  }

  lemma TurnRaises(c: Config, deadline: real, tick: Tick, s: Schedule, fetch: nat -> Fetch)
    requires c.Positive() && s.why == Polling && fetch(s.Fetched()).Recorded?
    ensures var t := Turn(c, deadline, tick, s, fetch); fetch(t.Fetched()).Raises? <==> t.why == Raised
  {
  }

  lemma NoneRaised(c: Config, started: real, ticks: seq<Tick>, fetch: nat -> Fetch)
    requires c.Positive() && forall k :: fetch(k).Recorded?
    ensures Polled(c, started, ticks, fetch).why != Raised
  {
    if Polled(c, started, ticks, fetch).why == Raised {
      RaisedByLast(c, started, ticks, fetch);
      assert false;
    }
  }

  /** The records of the fetches up to a sequence number. */
  function FetchRecords(fetch: nat -> Fetch, last: nat): (n: nat)
    ensures n <= 2 * last
    ensures last > 0 && fetch(last).Raises? ==> n < 2 * last
  {
    if last == 0 then 0 else FetchRecords(fetch, last - 1) + fetch(last).Records()
  }

  /** How many of the n samples at the end are attempted: an exception escapes from the last of them, or from none. */
  function Ends(fetch: nat -> Fetch, last: nat, n: nat): nat
    decreases n
  {
    if n == 0 then 0 else if fetch(last + 1).Raises? then 1 else 1 + Ends(fetch, last + 1, n - 1)
  }

  lemma {:induction false} AllRecorded(fetch: nat -> Fetch, last: nat)
    requires forall k :: fetch(k).Recorded?
    ensures FetchRecords(fetch, last) == 2 * last
  {
    if last == 0 {
    } else {
      AllRecorded(fetch, last - 1);
    }
  }

  lemma AllFetchesRecorded(fetch: nat -> Fetch, last: nat)
    requires forall k :: fetch(k).Recorded?
    ensures FetchRecords(fetch, last) == 2 * last && FetchRecords(fetch, last + 3) == 2 * (last + 3)
    ensures Ends(fetch, last, 3) == 3
  {
    AllRecorded(fetch, last);
    AllRecorded(fetch, last + 3);
    assert Ends(fetch, last + 2, 1) == 1 && Ends(fetch, last + 1, 2) == 2;
  }

  /** The three samples at the end, up to the first from which an exception escapes. */
  method EndSamples(fetch: nat -> Fetch, last: nat) returns (fetched: nat, failed: bool)
    ensures fetched == last + Ends(fetch, last, 3) && fetched <= last + 3
    ensures failed == fetch(fetched).Raises?
  {
    fetched, failed := last, false;
    var ends := 0;
    while ends < 3 && !failed
      invariant 0 <= ends <= 3 && fetched == last + ends && (ends > 0 ==> failed == fetch(fetched).Raises?)
      invariant ends == 0 ==> !failed
      invariant Ends(fetch, last, 3) == ends + if failed then 0 else Ends(fetch, fetched, 3 - ends)
    {
      fetched, ends := fetched + 1, ends + 1;
      failed := fetch(fetched).Raises?;
    }
  }

  /**
   A capture run, from `start` to its terminal record, or to the turn it has reached;
   `cancelled` is the cancel flag after the loop.
   With a recorder that the run accepts, its records and the annotations it allows all fit.
   */
  method Run(
    c: Config, started: real, ticks: seq<Tick>, fetch: nat -> Fetch, cancelled: bool, maxRecords: int, annotations: nat)
    returns (records: nat, over: bool)
    requires c.Positive() && Rises(started, ticks)
    requires EstimatedRecords(c) <= maxRecords && annotations <= AnnotationLimit(c, maxRecords)
    ensures records + 4 <= EstimatedRecords(c)
    ensures fetch(1).Raises? ==> over && records == 3 + FetchRecords(fetch, 1)
    ensures fetch(1).Recorded? ==>
      var s := Polled(c, started, ticks, fetch);
      var last := s.Fetched() + if s.why == Deadline && !cancelled then Ends(fetch, s.Fetched(), 3) else 0;
      records == 1 + FetchRecords(fetch, last) +
        (if s.why == Polling then 0 else if fetch(last).Raises? then 2 else 1)
    ensures fetch(1).Recorded? ==> (over <==> Polled(c, started, ticks, fetch).why != Polling)
    ensures (forall k :: fetch(k).Recorded?) ==>
      var s := Polled(c, started, ticks, fetch);
      var ends := if s.why == Deadline && !cancelled then 3 else 0;
      records == (if over then 2 else 1) + 2 * (1 + s.states + s.healths + ends)
    ensures records + annotations <= maxRecords
  {
    DueBeforeDeadline(started, c.stateInterval, c.duration, 0);
    DueBeforeDeadline(started, c.healthInterval, c.duration, 0);
    if fetch(1).Raises? {
      return 1 + FetchRecords(fetch, 1) + 2, true;
    }
    var s := Poll(c, started, ticks, fetch);
    SamplesAreBounded(c, started, ticks, fetch);
    RaisedByLast(c, started, ticks, fetch);
    ghost var recorded := forall k :: fetch(k).Recorded?;
    if recorded {
      AllFetchesRecorded(fetch, s.Fetched());
    }
    records := 1;
    if s.why == Polling {
      return records + FetchRecords(fetch, s.Fetched()), false;
    }
    var fetched, failed := s.Fetched(), s.why == Raised;
    if s.why == Deadline && !cancelled {
      fetched, failed := EndSamples(fetch, fetched);
    }
    records := records + FetchRecords(fetch, fetched);
    if failed {
      records := records + 1;
    }
    records := records + 1;
    over := true;
  }
}
