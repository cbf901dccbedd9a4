/** What the reasons and the lists of a finding say about the samples of the window. */
module Findings {
  import opened Common
  import opened JsonTree
  import opened Sweep
  import opened Timeline
  import opened Evidence
  import opened Attempts
  import opened Engine
  import opened Guarantees

  /** The samples whose interval touches the window, its two ends included. */
  function Touching(line: Line<Json>, start: int, end: int, n: nat): set<nat>
    requires n <= |line.attempts|
  {
    set k: nat | k < n && line.attempts[k].start <= end && start <= line.attempts[k].end
  }

  function ValidOnes(line: Line<Json>, ks: set<nat>): set<nat>
    requires forall k :: k in ks ==> k < |line.attempts|
  {
    set k | k in ks && line.attempts[k].valid
  }

  lemma TouchingMore(line: Line<Json>, start: int, end: int, n: nat)
    requires n < |line.attempts|
    ensures var now := line.attempts[n].start <= end && start <= line.attempts[n].end;
      |Touching(line, start, end, n + 1)| == |Touching(line, start, end, n)| + (if now then 1 else 0) &&
      |ValidOnes(line, Touching(line, start, end, n + 1))| ==
        |ValidOnes(line, Touching(line, start, end, n))| + (if now && line.attempts[n].valid then 1 else 0)
  {
    var earlier, next := Touching(line, start, end, n), Touching(line, start, end, n + 1);
    if line.attempts[n].start <= end && start <= line.attempts[n].end {
      assert next == earlier + {n};
      var added: set<nat> := if line.attempts[n].valid then {n} else {};
      assert ValidOnes(line, next) == ValidOnes(line, earlier) + added;
    } else {
      assert next == earlier;
    }
  }

  /** The counts of a tally are those of the samples that touch the window. */
  lemma {:induction false} TallyCounts(line: Line<Json>, incomplete: bool, start: int, end: int, n: nat)
    requires n <= |line.attempts| == |line.truths|
    ensures var tally, touching := TallyOf(line, incomplete, start, end, n), Touching(line, start, end, n);
      tally.overlapping == |touching| && tally.valid == |ValidOnes(line, touching)|
  {
    if n == 0 {
      assert Touching(line, start, end, 0) == {} && ValidOnes(line, {}) == {};
    } else {
      TallyCounts(line, incomplete, start, end, n - 1);
      TouchingMore(line, start, end, n - 1);
    }
  }

  predicate Touches(a: Sample, start: int, end: int) {
    a.start <= end && start <= a.end
  }

  /** The whole interval lies in the window. */
  predicate Inside(a: Sample, start: int, end: int) {
    start <= a.start && a.end <= end
  }

  /** Sample k is false, and its whole interval lies in the window. */
  predicate ProvenFalse(line: Line<Json>, start: int, end: int, k: nat) {
    k < |line.attempts| == |line.truths| && line.truths[k] == Some(false) && Inside(line.attempts[k], start, end)
  }

  /** Sample k is false, and may have been taken in the window or outside. */
  predicate MaybeFalse(line: Line<Json>, start: int, end: int, k: nat) {
    k < |line.attempts| == |line.truths| && line.truths[k] == Some(false) &&
    Touches(line.attempts[k], start, end) && !Inside(line.attempts[k], start, end)
  }

  /** Sample k may have been taken in the window, and nothing is known of it. */
  predicate Useless(line: Line<Json>, start: int, end: int, k: nat) {
    k < |line.attempts| == |line.truths| && line.truths[k] == None && Touches(line.attempts[k], start, end)
  }

  predicate Invalid(line: Line<Json>, start: int, end: int, k: nat) {
    k < |line.attempts| && !line.attempts[k].valid && Touches(line.attempts[k], start, end)
  }

  /** One of the first n samples ends with record q and has the property. */
  ghost predicate Named(line: Line<Json>, n: nat, q: int, property: nat -> bool)
    requires n <= |line.attempts|
  {
    exists k: nat :: k < n && property(k) && line.attempts[k].last == q
  }

  lemma SomeMore(line: Line<Json>, n: nat, q: int, property: nat -> bool)
    requires n < |line.attempts|
    ensures Named(line, n + 1, q, property) <==>
      Named(line, n, q, property) || (property(n) && line.attempts[n].last == q)
  {
    if k: nat :| k < n + 1 && property(k) && line.attempts[k].last == q {
      assert k == n || k < n;
    }
  }

  lemma OneTallied(t: Tally, a: Sample, truth: Truth, incomplete: bool, start: int, end: int, q: int)
    requires a.start <= a.end && start <= end
    ensures var u := TallyOne(t, a, truth, incomplete, start, end);
      (q in u.violations <==> q in t.violations || (truth == Some(false) && Inside(a, start, end) && a.last == q)) &&
      (q in u.edgeViolations <==>
        q in t.edgeViolations ||
        (truth == Some(false) && Touches(a, start, end) && !Inside(a, start, end) && a.last == q)) &&
      (q in u.unusable <==>
        q in t.unusable || (truth == None && !incomplete && Touches(a, start, end) && a.last == q)) &&
      (q in u.invalid <==> q in t.invalid || (!a.valid && Touches(a, start, end) && a.last == q))
  {
  }

  /** The lists name the last records of just these samples. */
  ghost predicate ListsAre(tally: Tally, line: Line<Json>, incomplete: bool, start: int, end: int, n: nat, q: int)
    requires n <= |line.attempts| == |line.truths|
  {
    (q in tally.violations <==> Named(line, n, q, (k: nat) => ProvenFalse(line, start, end, k))) &&
    (q in tally.edgeViolations <==> Named(line, n, q, (k: nat) => MaybeFalse(line, start, end, k))) &&
    (q in tally.unusable <==> !incomplete && Named(line, n, q, (k: nat) => Useless(line, start, end, k))) &&
    (q in tally.invalid <==> Named(line, n, q, (k: nat) => Invalid(line, start, end, k)))
  }

  lemma NextListed(line: Line<Json>, incomplete: bool, start: int, end: int, n: nat, q: int, earlier: Tally)
    requires n < |line.attempts| == |line.truths| && start <= end && line.attempts[n].start <= line.attempts[n].end
    requires ListsAre(earlier, line, incomplete, start, end, n, q)
    ensures ListsAre(TallyOne(earlier, line.attempts[n], line.truths[n], incomplete, start, end),
                     line, incomplete, start, end, n + 1, q)
  {
    OneTallied(earlier, line.attempts[n], line.truths[n], incomplete, start, end, q);
    SomeMore(line, n, q, (k: nat) => ProvenFalse(line, start, end, k));
    SomeMore(line, n, q, (k: nat) => MaybeFalse(line, start, end, k));
    SomeMore(line, n, q, (k: nat) => Useless(line, start, end, k));
    SomeMore(line, n, q, (k: nat) => Invalid(line, start, end, k));
  }

  lemma {:induction false} TallyLists(line: Line<Json>, incomplete: bool, start: int, end: int, n: nat, q: int)
    requires n <= |line.attempts| == |line.truths| && start <= end
    requires forall k :: 0 <= k < |line.attempts| ==> line.attempts[k].start <= line.attempts[k].end
    ensures ListsAre(TallyOf(line, incomplete, start, end, n), line, incomplete, start, end, n, q)
  {
    if n == 0 {
    } else {
      TallyLists(line, incomplete, start, end, n - 1, q);
      NextListed(line, incomplete, start, end, n - 1, q, TallyOf(line, incomplete, start, end, n - 1));
    }
  }

  // ---- the reasons ----

  ghost predicate Any(line: Line<Json>, property: nat -> bool) {
    exists k: nat :: k < |line.attempts| && property(k)
  }

  lemma AnyIsSome(line: Line<Json>, list: seq<int>, property: nat -> bool)
    requires forall q :: q in list <==> Named(line, |line.attempts|, q, property)
    ensures list != [] <==> Any(line, property)
  {
    if list != [] {
      assert list[0] in list && Named(line, |line.attempts|, list[0], property);
    }
    if k: nat :| k < |line.attempts| && property(k) {
      assert Named(line, |line.attempts|, line.attempts[k].last, property);
      assert line.attempts[k].last in list;
    }
  }

  lemma NonEmptyLists(line: Line<Json>, incomplete: bool, start: int, end: int)
    requires line.WellFormed() && start <= end
    requires forall k :: 0 <= k < |line.attempts| ==> line.attempts[k].start <= line.attempts[k].end
    ensures var tally := TallyOf(line, incomplete, start, end, |line.attempts|);
      (tally.edgeViolations != [] <==> Any(line, (k: nat) => MaybeFalse(line, start, end, k))) &&
      (!incomplete ==> (tally.unusable != [] <==> Any(line, (k: nat) => Useless(line, start, end, k)))) &&
      (incomplete ==> tally.unusable == [])
  {
    var tally := TallyOf(line, incomplete, start, end, |line.attempts|);
    forall q
      ensures q in tally.edgeViolations <==>
        Named(line, |line.attempts|, q, (k: nat) => MaybeFalse(line, start, end, k))
      ensures q in tally.unusable <==>
        !incomplete && Named(line, |line.attempts|, q, (k: nat) => Useless(line, start, end, k))
    {
      TallyLists(line, incomplete, start, end, |line.attempts|, q);
    }
    AnyIsSome(line, tally.edgeViolations, (k: nat) => MaybeFalse(line, start, end, k));
    if incomplete {
      AnyIsSome(line, tally.unusable, (k: nat) => false);
    } else {
      AnyIsSome(line, tally.unusable, (k: nat) => Useless(line, start, end, k));
    }
  }

  lemma ReasonsOfTally(criterion: Criterion, verdict: Verdict, hold: int, falseNs: int, unknownNs: int, tally: Tally,
                       incomplete: bool, late: bool)
    ensures var reasons := ReasonsOf(criterion, verdict, hold, falseNs, unknownNs, tally, incomplete, late);
      if verdict != Inconclusive then reasons == {}
      else
        (NoHoldDeclared in reasons <==> hold == 0) && (CoverageIncomplete in reasons <==> unknownNs > 0) &&
        (NoObservations in reasons <==> tally.overlapping == 0) &&
        (InvalidObservations in reasons <==> tally.unusable != []) &&
        (SequenceGap in reasons <==> incomplete) && (EvidenceEnded in reasons <==> late) &&
        (ViolationAtWindowEdge in reasons <==> tally.edgeViolations != []) &&
        (HeldViolation in reasons <==> criterion == HoldsThroughout && falseNs > 0)
  {
  }

  lemma NoneTouch(line: Line<Json>, incomplete: bool, start: int, end: int)
    requires line.WellFormed()
    ensures TallyOf(line, incomplete, start, end, |line.attempts|).overlapping == 0 <==>
      forall k :: 0 <= k < |line.attempts| ==> !Touches(line.attempts[k], start, end)
  {
    var touching := Touching(line, start, end, |line.attempts|);
    TallyCounts(line, incomplete, start, end, |line.attempts|);
    assert |touching| == 0 <==> touching == {};
    forall k: nat | k < |line.attempts|
      ensures k in touching <==> Touches(line.attempts[k], start, end)
    {
    }
  }

  /** What the reasons of a finding that is not decided say. */
  ghost predicate Explained(f: Finding, line: Line<Json>, incomplete: bool, criterion: Criterion, start: int, end: int)
    requires line.horizon.Some?
  {
    (NoHoldDeclared in f.reasons <==> line.hold == 0) && (CoverageIncomplete in f.reasons <==> f.unknownNs > 0) &&
    (NoObservations in f.reasons <==>
      forall k :: 0 <= k < |line.attempts| ==> !Touches(line.attempts[k], start, end)) &&
    (InvalidObservations in f.reasons <==> !incomplete && Any(line, (k: nat) => Useless(line, start, end, k))) &&
    (SequenceGap in f.reasons <==> incomplete) && (EvidenceEnded in f.reasons <==> end > line.horizon.value) &&
    (ViolationAtWindowEdge in f.reasons <==> Any(line, (k: nat) => MaybeFalse(line, start, end, k))) &&
    (HeldViolation in f.reasons <==> criterion == HoldsThroughout && f.falseNs > 0)
  }

  /** A decided finding has no reasons; each reason of another one says what it seems to say. */
  lemma ReasonsIff(line: Line<Json>, incomplete: bool, check: Check, start: int, end: int)
    requires line.WellFormed() && line.horizon.Some? && start < end
    requires forall k :: 0 <= k < |line.attempts| ==> line.attempts[k].start <= line.attempts[k].end
    ensures var f := Judge(line, incomplete, check, start, end);
      if f.verdict != Inconclusive then f.reasons == {}
      else Explained(f, line, incomplete, check.criterion, start, end)
  {
    var f := Judge(line, incomplete, check, start, end);
    NonEmptyLists(line, incomplete, start, end);
    NoneTouch(line, incomplete, start, end);
    ReasonsOfTally(check.criterion, f.verdict, line.hold, f.falseNs, f.unknownNs, f.tally, incomplete,
                   end > line.horizon.value);
  }

  // ---- the fraction ----

  /** The cross-multiplied comparison is that of the two exact fractions. */
  lemma ReachedIsFraction(check: Check, trueNs: int, width: int)
    requires ValidCheck(check) && check.criterion.TimeInBand? && 0 < width
    ensures Reached(check, trueNs, width) <==>
      trueNs as real / width as real >= check.criterion.numerator as real / check.criterion.denominator as real
  {
    var t, w := trueNs as real, width as real;
    var n, d := check.criterion.numerator as real, check.criterion.denominator as real;
    assert (t / w) * (w * d) == t * d && (n / d) * (w * d) == n * w;
    assert (trueNs * check.criterion.denominator) as real == t * d;
    assert (check.criterion.numerator * width) as real == n * w;
    Divide(t / w, n / d, w * d);
  }

  lemma Divide(a: real, b: real, factor: real)
    requires factor > 0.0
    ensures a * factor >= b * factor <==> a >= b
  {
  }
}
