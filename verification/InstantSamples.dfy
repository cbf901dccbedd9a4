/**
 When do time_in_band verdicts coincide with what all possible worlds agree on? Not
 always; but whenever the sample instants are certain and the window ends by the terminal.
 */
module InstantSamples {
  import opened Common
  import opened JsonTree
  import opened Cells
  import opened Sweep
  import opened Timeline
  import opened Tightness
  import opened Evidence
  import opened Attempts
  import opened Engine
  import opened Guarantees
  import opened SmallFiles

  /** Every attempt was sampled at a known instant. */
  ghost predicate Instantaneous<V>(attempts: seq<Attempt<V>>) {
    forall k :: 0 <= k < |attempts| ==> attempts[k].start == attempts[k].end
  }

  /** The world in which every unit that nothing forces is false, and the one in which it is true. */
  ghost function Least<V>(line: Line<V>, instants: seq<int>): World {
    World(instants, iset x | Forced(line, instants, true, x))
  }

  ghost function Greatest<V>(line: Line<V>, instants: seq<int>): World {
    World(instants, iset x | !Forced(line, instants, false, x))
  }

  lemma ForcedOneWay<V>(line: Line<V>, instants: seq<int>, k: nat, x: int)
    requires Complete(line) && Instants(line.attempts, instants)
    requires k < |line.truths| && line.truths[k].Some? && Held(instants, line.hold, k, x)
    ensures forall v :: Forced(line, instants, v, x) <==> v == line.truths[k].value
  {
    forall v | Forced(line, instants, v, x)
      ensures v == line.truths[k].value
    {
      var j: nat :| j < |line.truths| && Held(instants, line.hold, j, x) && line.truths[j] == Some(v);
      if j < k {
        OneHolder(line, instants, j, k, x);
      } else if k < j {
        OneHolder(line, instants, k, j, x);
      }
    }
  }

  lemma ExtremesPossible<V>(line: Line<V>, instants: seq<int>)
    requires Complete(line) && Instants(line.attempts, instants)
    ensures Possible(line, Least(line, instants)) && Possible(line, Greatest(line, instants))
  {
    forall k: nat, x | k < |line.truths| && line.truths[k].Some? && Held(instants, line.hold, k, x)
      ensures x in Least(line, instants).on <==> line.truths[k].value
      ensures x in Greatest(line, instants).on <==> line.truths[k].value
    {
      ForcedOneWay(line, instants, k, x);
    }
  }

  /** With certain instants, what is forced is so in every possible world. */
  lemma ForcedIsCertain<V>(line: Line<V>, instants: seq<int>, v: bool, c: int)
    requires Complete(line) && Instantaneous(line.attempts) && Instants(line.attempts, instants)
    requires Forced(line, instants, v, c)
    ensures Certain(line, v, c)
  {
    var k: nat :| k < |line.truths| && Held(instants, line.hold, k, c) && line.truths[k] == Some(v);
    forall w | Possible(line, w)
      ensures c in w.on <==> v
    {
      assert w.instants == instants;
    }
    ExtremesPossible(line, instants);
  }

  /** What is certain is forced, or one of the extreme worlds would disagree. */
  lemma CertainIsForced<V>(line: Line<V>, instants: seq<int>, v: bool, c: int)
    requires Complete(line) && Instants(line.attempts, instants) && Certain(line, v, c)
    ensures Forced(line, instants, v, c)
  {
    ExtremesPossible(line, instants);
    assert c in Least(line, instants).on <==> v;
    assert c in Greatest(line, instants).on <==> v;
  }

  /** With certain instants, the engine knows before the terminal exactly what those instants force. */
  lemma KnownIffForced<V>(line: Line<V>, instants: seq<int>, v: bool, c: int)
    requires Complete(line) && Instantaneous(line.attempts) && Instants(line.attempts, instants)
    requires c < line.horizon.value
    ensures Status(line.AllPieces(), c) == Some(v) <==> Forced(line, instants, v, c)
  {
    KnownIffCertain(line, v, c);
    if Certain(line, v, c) {
      CertainIsForced(line, instants, v, c);
    }
    if Forced(line, instants, v, c) {
      ForcedIsCertain(line, instants, v, c);
    }
  }

  lemma {:induction false} CountComplement(lo: int, hi: int, s: iset<int>, u: iset<int>)
    requires lo <= hi && forall c :: lo <= c < hi ==> (c in s <==> c !in u)
    ensures Count(lo, hi, s) + Count(lo, hi, u) == hi - lo
    decreases hi - lo
  {
    if hi <= lo {
    } else {
      CountComplement(lo, hi - 1, s, u);
    }
  }

  /** The two extreme worlds attain the engine's two bounds. */
  lemma BoundsAreAttained(line: Line<Json>, check: Check, start: int, end: int, instants: seq<int>)
    requires Judgeable(line, check, start, end) && Instantaneous(line.attempts) && Instants(line.attempts, instants)
    requires end <= line.horizon.value
    ensures var f := Judge(line, false, check, start, end);
      Count(start, end, Least(line, instants).on) == f.trueNs &&
      Count(start, end, Greatest(line, instants).on) == (end - start) - f.falseNs
  {
    var pieces, least, greatest := line.AllPieces(), Least(line, instants).on, Greatest(line, instants).on;
    forall c | start <= c < end
      ensures c in Known(pieces, true) <==> c in least
      ensures c in Known(pieces, false) <==> c !in greatest
    {
      KnownIffForced(line, instants, true, c);
      KnownIffForced(line, instants, false, c);
    }
    CountMonotone(start, end, Known(pieces, true), least);
    CountMonotone(start, end, least, Known(pieces, true));
    CountComplement(start, end, Known(pieces, false), greatest);
  }

  /** Every possible world gives the same answer to whether the fraction is reached. */
  ghost predicate Unanimous(line: Line<Json>, check: Check, start: int, end: int, answer: bool)
    requires start < end && check.criterion.TimeInBand?
  {
    forall w :: Possible(line, w) ==> Reached(check, Count(start, end, w.on), end - start) == answer
  }

  lemma InBandJudgedIff(line: Line<Json>, check: Check, start: int, end: int, instants: seq<int>)
    requires Judgeable(line, check, start, end) && check.criterion.TimeInBand?
    requires Instantaneous(line.attempts) && Instants(line.attempts, instants) && end <= line.horizon.value
    ensures var verdict := Judge(line, false, check, start, end).verdict;
      (verdict == Pass <==> Unanimous(line, check, start, end, true)) &&
      (verdict == Fail <==> Unanimous(line, check, start, end, false))
  {
    ExtremesPossible(line, instants);
    BoundsAreAttained(line, check, start, end, instants);
    forall w | Possible(line, w)
      ensures var verdict := Judge(line, false, check, start, end).verdict;
        (verdict == Pass ==> Reached(check, Count(start, end, w.on), end - start)) &&
        (verdict == Fail ==> !Reached(check, Count(start, end, w.on), end - start))
    {
      InBandJudged(line, check, start, end, w);
    }
    var f := Judge(line, false, check, start, end);
    var width := end - start;
    assert f.verdict == VerdictOf(check.criterion, f.trueNs, f.falseNs, f.unknownNs, width, f.tally.violations != []);
    if f.verdict != Pass {
      assert !Reached(check, Count(start, end, Least(line, instants).on), width);
    }
    if f.verdict != Fail {
      TrueTimeBounds(line, check, start, end, Least(line, instants));
      ScaleMonotone(f.trueNs, width - f.falseNs, check.criterion.denominator);
      assert Reached(check, Count(start, end, Greatest(line, instants).on), width);
    }
  }

  lemma JudgedOnTheLine(
    records: seq<Record>, sig: Signal, check: Check, hold: int, start: int, end: int)
    requires Decidable(records, sig, check) && Window(RunOf(records), check) == Ok((start, end))
    ensures var line := TheLine(records, sig, check, hold);
      Judgeable(line, check, start, end) && line.horizon == Some(RunOf(records).terminal.value.monotonic) &&
      line.attempts == AttemptsFor(RunRecords(RunOf(records), records), sig) &&
      FindingOf(EvidenceOf(records), sig, check, hold) == Judge(line, false, check, start, end)
  {
    LineIsComplete(records, sig, check, hold);
    FindingIsJudged(records, sig, check, hold);
  }

  /**
   With certain instants and a window that ends by the terminal, a time_in_band verdict is
   PASS (FAIL) if and only if the fraction is reached (missed) in every possible world.
   */
  lemma InBandDecidedIff(records: seq<Record>, sig: Signal, check: Check, hold: int)
    requires Decidable(records, sig, check) && check.criterion.TimeInBand?
    requires Instantaneous(AttemptsFor(RunRecords(RunOf(records), records), sig))
    requires Window(RunOf(records), check).value.1 <= RunOf(records).terminal.value.monotonic
    ensures var line, verdict :=
        TheLine(records, sig, check, hold), FindingOf(EvidenceOf(records), sig, check, hold).verdict;
      var (start, end) := Window(RunOf(records), check).value;
      (verdict == Pass <==> Unanimous(line, check, start, end, true)) &&
      (verdict == Fail <==> Unanimous(line, check, start, end, false))
  {
    var line := TheLine(records, sig, check, hold);
    var (start, end) := Window(RunOf(records), check).value;
    JudgedOnTheLine(records, sig, check, hold, start, end);
    var instants := seq(|line.attempts|, k requires 0 <= k < |line.attempts| => line.attempts[k].start);
    InBandJudgedIff(line, check, start, end, instants);
  }

  // ---- both conditions are needed ----

  /** Is a window of fourteen units true for at least seven tenths of it? Every usable value is. */
  const SEVEN_TENTHS := Check(0, Some(14), (value: Json) => Some(true), TimeInBand(7, 10))

  /** The timeline of a file with one sample. */
  function OneSample(answered: int, end: int, hold: int): Line<Json> {
    Line([Attempt(0, answered, 2, 3, Some(Null), true)], [Some(true)], [], hold, Some(end), Some(4))
  }

  lemma OneSampleLine(answered: int, end: int, hold: int)
    requires 0 <= answered <= end
    ensures var file := OneSampleFile(answered, end);
      Decidable(file, PAYLOAD, SEVEN_TENTHS) && Window(RunOf(file), SEVEN_TENTHS) == Ok((0, 14)) &&
      TheLine(file, PAYLOAD, SEVEN_TENTHS, hold) == OneSample(answered, end, hold)
  {
    var file := OneSampleFile(answered, end);
    OneSampleAttempts(answered, end);
    OneRun(file);
    assert TruthsOf(AttemptsFor(file, PAYLOAD), SEVEN_TENTHS, false) == [Some(true)];
  }

  /** Wherever the sample was taken, the units held after it are true. */
  lemma OneSampleFills(answered: int, end: int, hold: int, w: World)
    requires 0 <= answered < 14 && 0 < hold && Possible(OneSample(answered, end, hold), w)
    ensures Count(0, 14, w.on) >= Min(hold, 14 - answered)
  {
    var t := w.instants[0];
    var until := Min(t + hold, 14);
    forall c | t <= c < until
      ensures c in w.on
    {
      assert Held(w.instants, hold, 0, c);
    }
    CountSplit(0, t, 14, w.on);
    CountSplit(t, until, 14, w.on);
    CountAll(t, until, w.on);
  }

  lemma OneSampleKnown(answered: int, end: int, hold: int)
    requires var reach := Min(end, hold); 0 <= answered < reach <= 14
    ensures var pieces := OneSample(answered, end, hold).AllPieces();
      Count(0, 14, Known(pieces, true)) == Min(end, hold) - answered && Count(0, 14, Known(pieces, false)) == 0
  {
    var line, reach := OneSample(answered, end, hold), Min(end, hold);
    var p := Piece(answered, reach, Some(true));
    assert line.Pieces(0) == [] && line.Own(0) == [] && line.After(0) == [p];
    assert line.Pieces(1) == [p];
    OnePieceKnown(p, 0, 14);
  }

  lemma InBandVerdict(line: Line<Json>, check: Check, start: int, end: int, t: int, f: int)
    requires |line.truths| == |line.attempts| && line.horizon.Some? && check.criterion.TimeInBand?
    requires Count(start, end, Known(line.AllPieces(), true)) == t
    requires Count(start, end, Known(line.AllPieces(), false)) == f
    ensures Judge(line, false, check, start, end).verdict ==
            VerdictOf(check.criterion, t, f, (end - start) - t - f, end - start, false)
  {
  }

  /** Too few units are known, and in every possible world there are enough. */
  lemma OneSampleUndecided(answered: int, end: int, hold: int)
    requires 0 <= answered < 14 && answered < Min(end, hold) <= 14
    requires (Min(end, hold) - answered) * 10 < 98 <= Min(hold, 14 - answered) * 10
    ensures var file := OneSampleFile(answered, end);
      Decidable(file, PAYLOAD, SEVEN_TENTHS) && Window(RunOf(file), SEVEN_TENTHS) == Ok((0, 14)) &&
      FindingOf(EvidenceOf(file), PAYLOAD, SEVEN_TENTHS, hold).verdict == Inconclusive &&
      Unanimous(TheLine(file, PAYLOAD, SEVEN_TENTHS, hold), SEVEN_TENTHS, 0, 14, true)
  {
    var file, line := OneSampleFile(answered, end), OneSample(answered, end, hold);
    OneSampleLine(answered, end, hold);
    OneSampleKnown(answered, end, hold);
    FindingIsJudged(file, PAYLOAD, SEVEN_TENTHS, hold);
    InBandVerdict(line, SEVEN_TENTHS, 0, 14, Min(end, hold) - answered, 0);
    forall w | Possible(line, w)
      ensures Reached(SEVEN_TENTHS, Count(0, 14, w.on), 14)
    {
      OneSampleFills(answered, end, hold, w);
    }
  }

  lemma OneSampleRun(answered: int, end: int)
    requires 0 <= answered <= end
    ensures var file := OneSampleFile(answered, end);
      RunOf(file).terminal.Some? && RunOf(file).terminal.value.monotonic == end &&
      (answered == 0 ==> Instantaneous(AttemptsFor(RunRecords(RunOf(file), file), PAYLOAD)))
  {
    OneSampleAttempts(answered, end);
    OneRun(OneSampleFile(answered, end));
  }

  /**
   Without certain instants agreement is not always seen: with one sample taken somewhere in
   [0, 4] and held for 10, ten of fourteen units are true in every possible world, the
   engine knows six, and the verdict on seven tenths is INCONCLUSIVE.
   */
  lemma AgreementNotAlwaysSeen()
    ensures var file := OneSampleFile(4, 20);
      Decidable(file, PAYLOAD, SEVEN_TENTHS) && Window(RunOf(file), SEVEN_TENTHS) == Ok((0, 14)) &&
      14 <= RunOf(file).terminal.value.monotonic &&
      FindingOf(EvidenceOf(file), PAYLOAD, SEVEN_TENTHS, 10).verdict == Inconclusive &&
      Unanimous(TheLine(file, PAYLOAD, SEVEN_TENTHS, 10), SEVEN_TENTHS, 0, 14, true)
  {
    OneSampleUndecided(4, 20, 10);
    OneSampleRun(4, 20);
  }

  /**
   Nor is it in a window that ends after the terminal, though the instants are certain: a
   sample taken at 0 and held for 30 makes every unit true in every possible world, and
   the engine knows the five before the terminal.
   */
  lemma LateWindowNotSeen()
    ensures var file := OneSampleFile(0, 5);
      Decidable(file, PAYLOAD, SEVEN_TENTHS) && Window(RunOf(file), SEVEN_TENTHS) == Ok((0, 14)) &&
      RunOf(file).terminal.value.monotonic < 14 &&
      Instantaneous(AttemptsFor(RunRecords(RunOf(file), file), PAYLOAD)) &&
      FindingOf(EvidenceOf(file), PAYLOAD, SEVEN_TENTHS, 30).verdict == Inconclusive &&
      Unanimous(TheLine(file, PAYLOAD, SEVEN_TENTHS, 30), SEVEN_TENTHS, 0, 14, true)
  {
    OneSampleUndecided(0, 5, 30);
    OneSampleRun(0, 5);
  }
}
