/** Exact seconds of an assessment profile, turned into integer nanoseconds. */
module Profile {
  import opened Common
  import opened Timeline
  import opened Sweep

  const BILLION := 1_000_000_000
  const MAX_HOLD_SECONDS := 3600

  /** A parsed number of seconds as its exact integer ratio. */
  datatype Seconds = Seconds(numerator: int, denominator: int)

  ghost predicate Exact(s: Seconds) {
    s.denominator > 0
  }

  predicate Negative(s: Seconds) {
    s.numerator < 0
  }

  datatype ProfileError = NegativeSeconds | EmptyWindow | HoldOutOfRange

  /** `_seconds_to_ns`: the quotient, and one more when rounding up a remainder. */
  function SecondsToNs(s: Seconds, ceiling: bool): Result<int, ProfileError>
    requires Exact(s)
  {
    if Negative(s) then Err(NegativeSeconds)
    else
      var quotient := s.numerator * BILLION / s.denominator;
      var remainder := s.numerator * BILLION % s.denominator;
      Ok(quotient + (if ceiling && remainder != 0 then 1 else 0))
  }

  /** Rounding down gives the largest whole number of nanoseconds that fits, rounding up the least that covers. */
  lemma RoundingIsExact(s: Seconds, ns: int)
    requires Exact(s) && !Negative(s)
    ensures ns <= SecondsToNs(s, false).value <==> ns * s.denominator <= s.numerator * BILLION
    ensures ns >= SecondsToNs(s, true).value <==> ns * s.denominator >= s.numerator * BILLION
  {
    var total, d := s.numerator * BILLION, s.denominator;
    var q, r := total / d, total % d;
    assert total == q * d + r && 0 <= r < d;
    if ns <= q {
      MulAtMost(ns, q, d);
    } else {
      MulAtMost(q + 1, ns, d);
      assert (q + 1) * d == q * d + d;
    }
    if ns < q {
      MulAtMost(ns, q - 1, d);
      assert (q - 1) * d == q * d - d;
    }
  }

  lemma MulAtMost(a: int, b: int, d: int)
    requires a <= b && 0 < d
    ensures a * d <= b * d
  {
  }

  /** Offsets of a window: the start rounds down, an explicit end rounds up. */
  function WindowNs(start: Seconds, end: Option<Seconds>): Result<(int, Option<int>), ProfileError>
    requires Exact(start) && (end.Some? ==> Exact(end.value))
  {
    if Negative(start) then Err(NegativeSeconds)
    else if end.None? then Ok((SecondsToNs(start, false).value, None))
    else if end.value.numerator * start.denominator <= start.numerator * end.value.denominator then Err(EmptyWindow)
    else if Negative(end.value) then Err(NegativeSeconds)
    else Ok((SecondsToNs(start, false).value, Some(SecondsToNs(end.value, true).value)))
  }

  /** An accepted explicit window is never empty and is rounded outward, by less than a nanosecond at each side. */
  lemma WindowRoundsOutward(start: Seconds, end: Seconds)
    requires Exact(start) && Exact(end) && WindowNs(start, Some(end)).Ok?
    ensures var (low, high) := WindowNs(start, Some(end)).value;
      low < high.value &&
      low * start.denominator <= start.numerator * BILLION < (low + 1) * start.denominator &&
      (high.value - 1) * end.denominator < end.numerator * BILLION <= high.value * end.denominator
  {
    var (low, high) := WindowNs(start, Some(end)).value;
    RoundingIsExact(start, low);
    RoundingIsExact(start, low + 1);
    RoundingIsExact(end, high.value);
    RoundingIsExact(end, high.value - 1);
    if high.value <= low {
      OrderedRatios(start.numerator, start.denominator, end.numerator, end.denominator, low, high.value);
    }
  }

  /** With l <= 10^9 a/b and 10^9 c/d <= h, h <= l can only be when c/d <= a/b. */
  lemma OrderedRatios(a: int, b: int, c: int, d: int, l: int, h: int)
    requires 0 < b && 0 < d && h <= l
    requires l * b <= a * BILLION && c * BILLION <= h * d
    ensures c * b <= a * d
  {
    MulAtMost(h, l, b * d);
    MulAtMost(l * b, a * BILLION, d);
    MulAtMost(c * BILLION, h * d, b);
    assert l * (b * d) == (l * b) * d && h * (b * d) == (h * d) * b;
    assert (a * BILLION) * d == (a * d) * BILLION && (c * BILLION) * b == (c * b) * BILLION;
  }

  /** The declared hold, within [0, 3600] seconds, as whole nanoseconds. */
  function HoldNs(s: Seconds): Result<int, ProfileError>
    requires Exact(s)
  {
    if s.numerator < 0 || s.numerator > MAX_HOLD_SECONDS * s.denominator then Err(HoldOutOfRange)
    else SecondsToNs(s, false)
  }

  /** The number of seconds. */
  function Value(s: Seconds): real
    requires Exact(s)
  {
    s.numerator as real / s.denominator as real
  }

  lemma Compared(s: Seconds, n: int, d: int)
    requires Exact(s) && 0 < d
    ensures Value(s) <= n as real / d as real <==> s.numerator * d <= n * s.denominator
    ensures Value(s) < n as real / d as real <==> s.numerator * d < n * s.denominator
  {
    var a, b, x, y := s.numerator as real, s.denominator as real, n as real, d as real;
    assert (a / b) * (b * y) == a * y && (x / y) * (b * y) == x * b;
    assert (s.numerator * d) as real == a * y && (n * s.denominator) as real == x * b;
    Cancelled(a / b, x / y, b * y);
  }

  lemma Cancelled(a: real, b: real, factor: real)
    requires factor > 0.0
    ensures a * factor <= b * factor <==> a <= b
    ensures a * factor < b * factor <==> a < b
  {
  }

  /** Exactly the holds from nothing to an hour are accepted. */
  lemma HoldAcceptedIff(s: Seconds)
    requires Exact(s)
    ensures HoldNs(s).Ok? <==> 0.0 <= Value(s) <= 3600.0
  {
    Compared(s, 0, 1);
    Compared(s, 3600, 1);
  }

  /** Exactly the windows that start at or after zero and end after they start are accepted. */
  lemma WindowAcceptedIff(start: Seconds, end: Option<Seconds>)
    requires Exact(start) && (end.Some? ==> Exact(end.value))
    ensures WindowNs(start, end).Ok? <==> 0.0 <= Value(start) && (end.Some? ==> Value(start) < Value(end.value))
  {
    Compared(start, 0, 1);
    if end.Some? {
      Compared(start, end.value.numerator, end.value.denominator);
      if !Negative(start) && Negative(end.value) {
        NegativeIsLess(start, end.value);
      }
    }
  }

  lemma NegativeIsLess(start: Seconds, end: Seconds)
    requires Exact(start) && Exact(end) && !Negative(start) && Negative(end)
    ensures end.numerator * start.denominator <= start.numerator * end.denominator
  {
    MulAtMost(end.numerator, 0, start.denominator);
    MulAtMost(0, start.numerator, end.denominator);
  }

  /** The assumption as declared: cell c lies wholly within the declared seconds after sample k. */
  ghost predicate HeldFor(instants: seq<int>, s: Seconds, k: nat, c: int) {
    k < |instants| && instants[k] <= c && (c + 1 - instants[k]) * s.denominator <= s.numerator * BILLION &&
    (k + 1 < |instants| ==> c < instants[k + 1])
  }

  ghost predicate ConsistentFor<V>(w: World, attempts: seq<Attempt<V>>, truths: seq<Truth>, s: Seconds) {
    |truths| == |attempts| && Instants(attempts, w.instants) &&
    forall k: nat, c ::
      k < |truths| && truths[k].Some? && HeldFor(w.instants, s, k, c) ==> (c in w.on <==> truths[k].value)
  }

  /** Rounding the hold down loses nothing: the same worlds meet the declared and the effective hold. */
  lemma RoundedHoldSameWorlds<V>(w: World, attempts: seq<Attempt<V>>, truths: seq<Truth>, s: Seconds)
    requires Exact(s) && HoldNs(s).Ok?
    ensures ConsistentFor(w, attempts, truths, s) <==> Consistent(w, attempts, truths, HoldNs(s).value)
  {
    forall k: nat, c
      ensures HeldFor(w.instants, s, k, c) <==> Held(w.instants, HoldNs(s).value, k, c)
    {
      if k < |w.instants| {
        RoundingIsExact(s, c + 1 - w.instants[k]);
      }
    }
  }
}
