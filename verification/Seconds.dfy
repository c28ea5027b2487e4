// The seconds of a duration as the server reports them: int64(d.Seconds()), with float64 arithmetic
// (Resources in internal/red-box/api/slurm.go).
module Seconds {
  import opened Int64
  import opened Duration

  /** 2^53: integers up to it, and their halves, are float64 values. */
  const EXACT: int := 0x20_0000_0000_0000

  function Half(n: int): real {
    n as real / 2.0
  }

  /** Rounding to float64, as far as it matters here: it keeps the order, and halves of integers. */
  ghost predicate IsRounding(round: real -> real) {
    && (forall x, y :: x <= y ==> round(x) <= round(y))
    && (forall n :: -EXACT <= n <= EXACT ==> round(Half(n)) == Half(n))
  }

  /** The conversion of a float64 to an integer cuts its fraction off. */
  function Truncated(x: real): int {
    if x >= 0.0 then x.Floor else -((-x).Floor)
  }

  /** Whole seconds and the rest, which is divided first, are added. */
  function Sum(seconds: int, rest: int, round: real -> real): real {
    round(seconds as real + round(rest as real / 1000000000.0))
  }

  /** int64(d.Seconds()). */
  function FloatSeconds(nanos: int64, round: real -> real): int64 {
    Wrap(Truncated(Sum(WholeSeconds(nanos), nanos - SECOND * WholeSeconds(nanos), round)))
  }

  /** What lies between two halves is rounded to somewhere between them. */
  lemma RoundedBetween(round: real -> real, x: real, a: int, b: int)
    requires IsRounding(round) && Half(a) <= x <= Half(b) && -EXACT <= a && b <= EXACT
    requires a <= b
    ensures Half(a) <= round(x) <= Half(b)
  {
    assert round(Half(a)) <= round(x) <= round(Half(b));
  }

  lemma HalfSum(n: int, a: int)
    ensures n as real + Half(a) == Half(2 * n + a)
  {
  }

  lemma RestBetween(rest: int, a: int, b: int)
    requires a * 500_000_000 <= rest <= b * 500_000_000
    ensures Half(a) <= rest as real / 1000000000.0 <= Half(b)
  {
  }

  /** Bounds of the rest in half seconds are bounds of the sum. */
  lemma SumBetween(round: real -> real, seconds: int, rest: int, a: int, b: int)
    requires IsRounding(round) && -10_000_000_000 < seconds < 10_000_000_000 && -2 <= a <= b <= 2
    requires a * 500_000_000 <= rest <= b * 500_000_000
    ensures Half(2 * seconds + a) <= Sum(seconds, rest, round) <= Half(2 * seconds + b)
  {
    var q := rest as real / 1000000000.0;
    RestBetween(rest, a, b);
    RoundedBetween(round, q, a, b);
    HalfSum(seconds, a);
    HalfSum(seconds, b);
    RoundedBetween(round, seconds as real + round(q), 2 * seconds + a, 2 * seconds + b);
  }

  lemma CutUp(x: real, n: int)
    requires n >= 0 && Half(2 * n) <= x <= Half(2 * n + 2)
    ensures Truncated(x) == n || Truncated(x) == n + 1
    ensures x <= Half(2 * n + 1) ==> Truncated(x) == n
  {
  }

  lemma CutDown(x: real, n: int)
    requires n <= 0 && Half(2 * n - 2) <= x <= Half(2 * n)
    ensures Truncated(x) == n || Truncated(x) == n - 1
    ensures Half(2 * n - 1) <= x ==> Truncated(x) == n
  {
  }

  /** The seconds r are the whole ones, or one more if the rest is more than half a second. */
  predicate Near(seconds: int, rest: int, r: int) {
    || r == seconds
    || (rest > 500_000_000 && r == seconds + 1)
    || (rest < -500_000_000 && r == seconds - 1)
  }

  lemma SumIsNear(seconds: int, rest: int, round: real -> real)
    requires IsRounding(round) && -10_000_000_000 < seconds < 10_000_000_000
    requires (seconds >= 0 && 0 <= rest < SECOND) || (seconds <= 0 && -SECOND < rest <= 0)
    ensures Near(seconds, rest, Truncated(Sum(seconds, rest, round)))
  {
    if seconds >= 0 && rest >= 0 {
      SumBetween(round, seconds, rest, 0, if rest <= 500_000_000 then 1 else 2);
      CutUp(Sum(seconds, rest, round), seconds);
    } else {
      SumBetween(round, seconds, rest, if rest >= -500_000_000 then -1 else -2, 0);
      CutDown(Sum(seconds, rest, round), seconds);
    }
  }

  lemma WholeAndRest(nanos: int64)
    ensures var (seconds, rest) := (WholeSeconds(nanos), nanos - SECOND * WholeSeconds(nanos));
      && -9_223_372_037 < seconds < 9_223_372_037
      && ((seconds >= 0 && 0 <= rest < SECOND) || (seconds <= 0 && -SECOND < rest <= 0))
  {
    assert Fits(nanos);
  }

  /**
   * For every duration and every rounding: the seconds are the whole ones or, with a rest of more than
   * half a second, one more.
   */
  lemma FloatSecondsAre(nanos: int64, round: real -> real)
    requires IsRounding(round)
    ensures Near(WholeSeconds(nanos), nanos - SECOND * WholeSeconds(nanos), FloatSeconds(nanos, round))
  {
    WholeAndRest(nanos);
    SumIsNear(WholeSeconds(nanos), nanos - SECOND * WholeSeconds(nanos), round);
  }

  predicate IsWhole(nanos: int64) {
    nanos == SECOND * WholeSeconds(nanos)
  }

  lemma WholeIsExact(nanos: int64, round: real -> real)
    requires IsRounding(round) && IsWhole(nanos)
    ensures FloatSeconds(nanos, round) == WholeSeconds(nanos)
  {
    FloatSecondsAre(nanos, round);
  }

  lemma ReachesNext(x: real, n: int)
    requires n >= 0 && Half(2 * n) <= x <= Half(2 * n + 2)
    ensures Truncated(x) == n + 1 <==> x == (n + 1) as real
  {
  }

  lemma ReachesPrevious(x: real, n: int)
    requires n <= 0 && Half(2 * n - 2) <= x <= Half(2 * n)
    ensures Truncated(x) == n - 1 <==> x == (n - 1) as real
  {
  }

  /** Which durations get one second more: those whose seconds and rest, divided and added with rounding, reach it. */
  lemma OneMoreIff(nanos: int64, round: real -> real)
    requires IsRounding(round)
    ensures var seconds: int := WholeSeconds(nanos);
      var r: int := FloatSeconds(nanos, round);
      var rest := nanos - SECOND * seconds;
      var sum := round(seconds as real + round(rest as real / 1000000000.0));
      && (nanos >= 0 ==> (r == seconds + 1 <==> sum == (seconds + 1) as real))
      && (nanos <= 0 ==> (r == seconds - 1 <==> sum == (seconds - 1) as real))
  {
    var seconds: int := WholeSeconds(nanos);
    var rest := nanos - SECOND * seconds;
    WholeAndRest(nanos);
    SumIsNear(seconds, rest, round);
    if nanos >= 0 {
      SumBetween(round, seconds, rest, 0, 2);
      ReachesNext(Sum(seconds, rest, round), seconds);
    }
    if nanos <= 0 {
      SumBetween(round, seconds, rest, -2, 0);
      ReachesPrevious(Sum(seconds, rest, round), seconds);
    }
  }
}
