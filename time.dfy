/**
 * `clock__diff` of sercomm/posix/time.c: the difference of two
 * `struct timespec` values with one conditional borrow of a second.
 */
module Clock {

  const NSEC_PER_SEC: int := 1_000_000_000

  /** `struct timespec`. */
  datatype Timespec = Timespec(sec: int, nsec: int)

  /** `tv_nsec` within [0, 10^9), the form `clock_gettime` returns. */
  predicate Normalised(t: Timespec) { 0 <= t.nsec < NSEC_PER_SEC }

  /** The instant a timespec denotes, in nanoseconds. */
  function Nanos(t: Timespec): int { t.sec * NSEC_PER_SEC + t.nsec }

  /** `clock__diff(a, b)`: a - b. */
  function Diff(a: Timespec, b: Timespec): (d: Timespec)
    ensures Nanos(d) == Nanos(a) - Nanos(b)
    ensures d.sec == a.sec - b.sec || d.sec == a.sec - b.sec - 1
    ensures d.sec == a.sec - b.sec - 1 <==> a.nsec < b.nsec
    ensures Normalised(a) && Normalised(b) ==> Normalised(d)
  {
    var s := a.sec - b.sec;
    var n := a.nsec - b.nsec;
    if n < 0 then Timespec(s - 1, n + NSEC_PER_SEC) else Timespec(s, n)
  }

  /** Normalised timespecs are determined by the instant they denote. */
  lemma NormalisedUnique(x: Timespec, y: Timespec)
    requires Normalised(x) && Normalised(y)
    requires Nanos(x) == Nanos(y)
    ensures x == y
  {
    Decompose(x);
    Decompose(y);
  }

  /** A normalised timespec is the quotient and remainder of its instant by 10^9. */
  lemma Decompose(t: Timespec)
    requires Normalised(t)
    ensures t.sec == Nanos(t) / NSEC_PER_SEC
    ensures t.nsec == Nanos(t) % NSEC_PER_SEC
  {
  }

  /** The difference of an instant with itself is zero. */
  lemma DiffSelf(a: Timespec)
    ensures Diff(a, a) == Timespec(0, 0)
  {
  }

  /** A later (or equal) normalised instant gives a non-negative difference. */
  lemma DiffNonNegative(a: Timespec, b: Timespec)
    requires Normalised(a) && Normalised(b)
    requires Nanos(a) >= Nanos(b)
    ensures Diff(a, b).sec >= 0
  {
    Decompose(Diff(a, b));
  }

  /** Adding the difference back to the subtrahend gives the minuend. */
  lemma DiffRoundTrip(a: Timespec, b: Timespec)
    requires Normalised(a) && Normalised(b)
    ensures Add(b, Diff(a, b)) == a
  {
    var d := Diff(a, b);
    NormalisedUnique(Add(b, d), a);
  }

  /** The inverse of `Diff` on normalised values: b + d, carrying one second. */
  function Add(b: Timespec, d: Timespec): (t: Timespec)
    ensures Nanos(t) == Nanos(b) + Nanos(d)
    ensures Normalised(b) && Normalised(d) ==> Normalised(t)
  {
    var n := b.nsec + d.nsec;
    if n >= NSEC_PER_SEC then Timespec(b.sec + d.sec + 1, n - NSEC_PER_SEC)
    else Timespec(b.sec + d.sec, n)
  }
}
