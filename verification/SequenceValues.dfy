/**
  The values of a sequence in the order in which they are fetched: from the start by the
  increment, and from the other end of the range when the range is used up.
 */
module SequenceValues {

  datatype Progress = Progress(start: int, inc: int, lo: int, hi: int)
  {
    predicate Within(v: int) { lo <= v <= hi }

    predicate Ok() { inc != 0 && lo < hi && Within(start) }

    /** The end of the range from which all of it lies ahead. */
    function End(): int { if inc > 0 then lo else hi }
  }

  function Value(p: Progress, k: nat): int {
    if k == 0 then p.start
    else if p.Within(Value(p, k - 1) + p.inc) then Value(p, k - 1) + p.inc
    else p.End()
  }

  lemma {:induction false} ValueWithin(p: Progress, k: nat)
    requires p.Ok()
    ensures p.Within(Value(p, k))
  {
    if k > 0 { ValueWithin(p, k - 1); }
  }

  // ---------------------------------------------------------------- a block

  lemma Times(a: int, b: int, c: int)
    ensures (a + b) * c == a * c + b * c
  {
  }

  lemma Monotone(a: int, b: int, c: int)
    requires a < b
    ensures c > 0 ==> a * c < b * c
    ensures c < 0 ==> a * c > b * c
  {
    Times(a, b - a, c);
    if c > 0 { Positive(b - a, c); } else if c < 0 { Positive(b - a, -c); }
  }

  lemma Positive(a: int, b: int)
    requires a > 0 && b > 0
    ensures a * b > 0 && a * -b < 0
  {
  }

  /** What lies between two values of a progression within the range is within it. */
  lemma InBetween(p: Progress, v: int, j: nat, count: nat)
    requires p.Within(v) && p.Within(v + count * p.inc) && j <= count
    ensures p.Within(v + j * p.inc)
  {
    if p.inc == 0 {
    } else {
      if j < count { Monotone(j, count, p.inc); }
      if 0 < j { Monotone(0, j, p.inc); }
    }
  }

  /** As long as the range is not used up the values are one increment apart. */
  lemma {:induction false} ValueAhead(p: Progress, n: nat, count: nat)
    requires p.Ok() && p.Within(Value(p, n) + count * p.inc)
    ensures Value(p, n + count) == Value(p, n) + count * p.inc
  {
    ValueWithin(p, n);
    if count > 0 {
      InBetween(p, Value(p, n), count - 1, count);
      ValueAhead(p, n, count - 1);
      Times(count - 1, 1, p.inc);
    }
  }

  // ---------------------------------------------------------------- without a wrap

  /** The first n values have come without using up the range. */
  ghost predicate Linear(p: Progress, n: nat) { forall k: nat | k < n :: Value(p, k) == p.start + k * p.inc }

  lemma LinearNext(p: Progress, n: nat)
    requires Linear(p, n) && (n > 0 ==> p.Within(Value(p, n - 1) + p.inc))
    ensures Linear(p, n + 1)
  {
    if n > 0 {
      Times(n - 1, 1, p.inc);
      assert Value(p, n - 1) == p.start + (n - 1) * p.inc;
    }
  }

  lemma LinearOrder(p: Progress, n: nat, j: nat, k: nat)
    requires Linear(p, n) && j < k < n
    ensures p.inc > 0 ==> Value(p, j) < Value(p, k)
    ensures p.inc < 0 ==> Value(p, j) > Value(p, k)
  {
    Monotone(j, k, p.inc);
  }

  // ---------------------------------------------------------------- round and round

  /** The range is used up at w for the first time after j. */
  ghost predicate RunsTo(p: Progress, j: nat, w: nat) {
    && j < w && Value(p, w) == p.End() && !p.Within(Value(p, j) + (w - j) * p.inc)
    && forall m | j <= m < w :: Value(p, m) == Value(p, j) + (m - j) * p.inc
  }

  lemma RunsFurther(p: Progress, j: nat, w: nat)
    requires RunsTo(p, j + 1, w) && Value(p, j + 1) == Value(p, j) + p.inc
    ensures RunsTo(p, j, w)
  {
    forall m | j <= m < w ensures Value(p, m) == Value(p, j) + (m - j) * p.inc {
      if m > j { Times(m - (j + 1), 1, p.inc); }
    }
    Times(w - (j + 1), 1, p.inc);
  }

  lemma RunsOnce(p: Progress, j: nat)
    requires !p.Within(Value(p, j) + p.inc)
    ensures RunsTo(p, j, j + 1)
  {
    Times(0, 1, p.inc);
  }

  lemma {:induction false} NextWrap(p: Progress, j: nat) returns (w: nat)
    requires p.Ok()
    ensures RunsTo(p, j, w)
    decreases if p.inc > 0 then p.hi - Value(p, j) else Value(p, j) - p.lo
  {
    hide RunsTo;
    ValueWithin(p, j);
    if p.Within(Value(p, j) + p.inc) {
      w := NextWrap(p, j + 1);
      RunsFurther(p, j, w);
    } else {
      w := j + 1;
      RunsOnce(p, j);
    }
  }

  /** From a wrap on: the last one up to k, and the way from there to k. */
  lemma {:induction false} LastWrap(p: Progress, w: nat, k: nat) returns (last: nat)
    requires p.Ok() && w <= k && Value(p, w) == p.End()
    ensures w <= last <= k && forall m | last <= m <= k :: Value(p, m) == p.End() + (m - last) * p.inc
    decreases k - w
  {
    var next := NextWrap(p, w);
    if k < next {
      last := w;
    } else {
      last := LastWrap(p, next, k);
    }
  }

  /** A value of the progression that starts at the end of the range. */
  ghost predicate OnGrid(p: Progress, t: nat) { p.Within(p.End() + t * p.inc) }

  /** A value comes again only after every value of the progression from the end of the range has come. */
  lemma WholeProgression(p: Progress, j: nat, k: nat, t: nat) returns (m: nat)
    requires p.Ok() && j < k && Value(p, j) == Value(p, k) && OnGrid(p, t)
    ensures j <= m < k && Value(p, m) == p.End() + t * p.inc
  {
    var first := NextWrap(p, j);
    if k < first {
      Monotone(0, k - j, p.inc);
      assert false;
    }
    var last := LastWrap(p, first, k);
    var n := k - last;
    assert Value(p, k) == p.End() + n * p.inc;
    if t < n {
      m := last + t;
    } else if t == n {
      m := j;
    } else {
      Times(n, t - n, p.inc);
      assert p.End() + t * p.inc == Value(p, j) + (t - n) * p.inc;
      if t - n >= first - j {
        ValueWithin(p, j);
        InBetween(p, Value(p, j), first - j, t - n);
        assert false;
      }
      m := j + (t - n);
    }
  }
}
