/** Time is the integers; a cell t is the unit of time [t, t + 1). */
module Cells {

  /** How many cells of the half-open range [lo, hi) lie in s. */
  ghost function Count(lo: int, hi: int, s: iset<int>): nat
    decreases hi - lo
  {
    if hi <= lo then 0 else Count(lo, hi - 1, s) + (if hi - 1 in s then 1 else 0)
  }

  lemma {:induction false} CountSplit(lo: int, mid: int, hi: int, s: iset<int>)
    requires lo <= mid <= hi
    ensures Count(lo, hi, s) == Count(lo, mid, s) + Count(mid, hi, s)
    decreases hi - mid
  {
    if mid == hi {
    } else {
      CountSplit(lo, mid, hi - 1, s);
    }
  }

  lemma {:induction false} CountNone(lo: int, hi: int, s: iset<int>)
    requires forall c :: lo <= c < hi ==> c !in s
    ensures Count(lo, hi, s) == 0
    decreases hi - lo
  {
    if hi <= lo {
    } else {
      CountNone(lo, hi - 1, s);
    }
  }

  lemma {:induction false} CountAll(lo: int, hi: int, s: iset<int>)
    requires lo <= hi
    ensures Count(lo, hi, s) <= hi - lo
    ensures Count(lo, hi, s) == hi - lo <==> forall c :: lo <= c < hi ==> c in s
    decreases hi - lo
  {
    if hi <= lo {
    } else {
      CountAll(lo, hi - 1, s);
    }
  }

  lemma {:induction false} CountMonotone(lo: int, hi: int, s: iset<int>, u: iset<int>)
    requires forall c :: lo <= c < hi && c in s ==> c in u
    ensures Count(lo, hi, s) <= Count(lo, hi, u)
    decreases hi - lo
  {
    if hi <= lo {
    } else {
      CountMonotone(lo, hi - 1, s, u);
    }
  }

  /** Two sets that share no cell of the range cannot fill more than the range. */
  lemma {:induction false} CountDisjoint(lo: int, hi: int, s: iset<int>, u: iset<int>)
    requires lo <= hi
    requires forall c :: lo <= c < hi && c in s ==> c !in u
    ensures Count(lo, hi, s) + Count(lo, hi, u) <= hi - lo
    decreases hi - lo
  {
    if hi <= lo {
    } else {
      CountDisjoint(lo, hi - 1, s, u);
    }
  }
}
