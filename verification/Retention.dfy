/** Retention arithmetic of internal/provider/backup_schedule.go. Durations are
    Go's: int64 counts of nanoseconds, with wrap-around. */
module Retention {
  import opened Kube
  import opened Decimal

  const HOUR := 3_600_000_000_000
  const DAY := 24 * HOUR
  const KEEP_ALL := 100 * 365 * DAY
  const TWO63 := 0x8000_0000_0000_0000
  const TWO64 := 0x1_0000_0000_0000_0000

  /** The int64 a Go computation over int64 ends up with. */
  function Wrap(x: int): int {
    (x + TWO63) % TWO64 - TWO63
  }

  lemma WrapExactIff(x: int)
    ensures Wrap(x) == x <==> -TWO63 <= x < TWO63
  {
  }

  lemma WrapWrap(x: int, y: int)
    ensures Wrap(Wrap(x) + y) == Wrap(x + y)
  {
    var q := (x + TWO63) / TWO64;
    assert Wrap(x) == x - q * TWO64;
    WrapShift(x + y, -q);
  }

  lemma WrapShift(x: int, q: int)
    ensures Wrap(x + q * TWO64) == Wrap(x)
  {
    var a := x + TWO63;
    assert a == (a / TWO64) * TWO64 + a % TWO64;
    var b := a + q * TWO64;
    assert b == (b / TWO64) * TWO64 + b % TWO64;
    assert (b / TWO64 - a / TWO64 - q) * TWO64 == a % TWO64 - b % TWO64;
  }

  // ----- count retention ------------------------------------------------------

  /** interval*copies + interval, each operation on int64. */
  function CountAge(interval: int, copies: int): int {
    Wrap(Wrap(interval * copies) + interval)
  }

  /** The age is what it is meant to be exactly when it fits, for the intervals
      the caller passes (positive) and any number of copies. */
  lemma CountAgeExactIff(interval: int, copies: nat)
    requires 0 < interval
    ensures CountAge(interval, copies) == interval * (copies + 1) <==> interval * (copies + 1) < TWO63
  {
    WrapWrap(interval * copies, interval);
    assert interval * copies + interval == interval * (copies + 1);
    assert 0 <= interval * (copies + 1);
    WrapExactIff(interval * (copies + 1));
  }

  /** retention.count is an int32, so a daily schedule can ask for too many. */
  lemma DailyCountCanOverflow()
    ensures CountAge(DAY, 0x7fff_ffff) != DAY * 0x8000_0000
  {
    CountAgeExactIff(DAY, 0x7fff_ffff);
  }

  /** runs lists the instants of the runs so far, oldest first; now is later. */
  predicate Cadence(runs: seq<int>, now: int, interval: int) {
    && (forall i | 0 <= i < |runs| - 1 :: 0 < runs[i + 1] - runs[i] <= interval)
    && (runs != [] ==> 0 <= now - runs[|runs| - 1] <= interval)
  }

  predicate UniformCadence(runs: seq<int>, now: int, interval: int) {
    && (forall i | 0 <= i < |runs| - 1 :: runs[i + 1] - runs[i] == interval)
    && (runs != [] ==> 0 <= now - runs[|runs| - 1] <= interval)
  }

  /** The runs age-based retention keeps: those no older than age. */
  function Kept(runs: seq<int>, now: int, age: int): set<int> {
    set i | 0 <= i < |runs| && now - runs[i] <= age :: i
  }

  lemma {:induction false} GapSum(runs: seq<int>, now: int, interval: int, i: nat)
    requires Cadence(runs, now, interval) && i < |runs|
    ensures now - runs[i] <= interval * (|runs| - i)
    decreases |runs| - i
  {
    if i < |runs| - 1 {
      GapSum(runs, now, interval, i + 1);
      assert interval * (|runs| - i) == interval * (|runs| - (i + 1)) + interval;
    }
  }

  lemma {:induction false} UniformGapSum(runs: seq<int>, now: int, interval: int, i: nat)
    requires UniformCadence(runs, now, interval) && i < |runs|
    ensures now - runs[i] >= interval * (|runs| - 1 - i)
    decreases |runs| - i
  {
    if i < |runs| - 1 {
      UniformGapSum(runs, now, interval, i + 1);
      assert interval * (|runs| - 1 - i) == interval * (|runs| - 1 - (i + 1)) + interval;
    }
  }

  function Range(lo: int, hi: int): (r: set<int>)
    requires lo <= hi
    ensures forall i :: i in r <==> lo <= i < hi
    ensures |r| == hi - lo
    decreases hi - lo
  {
    if lo == hi then {} else Range(lo, hi - 1) + {hi - 1}
  }

  lemma MulMonotone(k: int, a: int, b: int)
    requires 0 <= k && a <= b
    ensures k * a <= k * b
  {
  }

  lemma SubsetCount<T>(a: set<T>, b: set<T>)
    requires a <= b
    ensures |a| <= |b|
  {
    assert b == a + (b - a);
  }

  /** Count retention keeps its promise: with no gap longer than the sampled
      interval, the n+1 newest runs are all kept at every instant. */
  lemma CountPromise(runs: seq<int>, now: int, interval: int, n: nat)
    requires 0 < interval && Cadence(runs, now, interval)
    requires interval * (n + 1) < TWO63
    requires |runs| >= n + 1
    ensures |Kept(runs, now, CountAge(interval, n))| >= n + 1
    ensures forall i | |runs| - (n + 1) <= i < |runs| :: i in Kept(runs, now, CountAge(interval, n))
  {
    CountAgeExactIff(interval, n);
    var age := CountAge(interval, n);
    var newest := Range(|runs| - (n + 1), |runs|);
    forall i | i in newest ensures i in Kept(runs, now, age) {
      GapSum(runs, now, interval, i);
      MulMonotone(interval, |runs| - i, n + 1);
    }
    SubsetCount(newest, Kept(runs, now, age));
  }

  /** And it does not keep many more: with a uniform cadence, at most n+2. */
  lemma CountSlack(runs: seq<int>, now: int, interval: int, n: nat)
    requires 0 < interval && UniformCadence(runs, now, interval)
    requires interval * (n + 1) < TWO63
    ensures |Kept(runs, now, CountAge(interval, n))| <= n + 2
  {
    CountAgeExactIff(interval, n);
    var age := CountAge(interval, n);
    var lo := if |runs| >= n + 2 then |runs| - (n + 2) else 0;
    var window := Range(lo, |runs|);
    assert interval * (n + 2) == interval * (n + 1) + interval;
    forall i | i in Kept(runs, now, age) ensures i in window {
      UniformGapSum(runs, now, interval, i);
      if i < lo { MulMonotone(interval, n + 2, |runs| - 1 - i); }
    }
    SubsetCount(Kept(runs, now, age), window);
  }

  /** The newest copies are all still kept. */
  predicate NewestKept(runs: seq<int>, now: int, age: int, copies: nat) {
    copies <= |runs| && forall i | |runs| - copies <= i < |runs| :: i in Kept(runs, now, age)
  }

  predicate Ordered(runs: seq<int>) {
    forall i, j | 0 <= i < j < |runs| :: runs[i] <= runs[j]
  }

  /** Exactly when that is so, for runs at any instants and any age, also one that
      has wrapped around: the oldest of them is no older than the age. */
  lemma NewestKeptIff(runs: seq<int>, now: int, age: int, copies: nat)
    requires Ordered(runs) && 1 <= copies <= |runs|
    ensures NewestKept(runs, now, age, copies) <==> now - runs[|runs| - copies] <= age
  {
    var oldest := |runs| - copies;
    if now - runs[oldest] <= age {
      forall i | oldest <= i < |runs| ensures i in Kept(runs, now, age) {
        assert runs[oldest] <= runs[i];
      }
    } else {
      assert oldest !in Kept(runs, now, age);
    }
  }

  // ----- the promise over a whole schedule ------------------------------------

  /** The instants at which a cron expression fires, from some first one on. */
  type Firings = f: nat -> int | Increasing(f) witness (k: nat) => k

  ghost predicate Increasing(f: nat -> int) {
    forall k: nat :: f(k) < f(k + 1)
  }

  /** The runs there are once firing k has been carried out. */
  function Fired(fires: Firings, k: nat): (runs: seq<int>)
    ensures |runs| == k + 1 && forall i: nat | i <= k :: runs[i] == fires(i)
  {
    seq(k + 1, i requires 0 <= i < k + 1 => fires(i))
  }

  /** The sum of count gaps, the first of them after firing k. */
  function GapsFrom(fires: Firings, k: nat, count: nat): int {
    if count == 0 then 0 else GapsFrom(fires, k, count - 1) + (fires(k + count) - fires(k + count - 1))
  }

  lemma {:induction false} GapsTelescope(fires: Firings, k: nat, count: nat)
    ensures GapsFrom(fires, k, count) == fires(k + count) - fires(k)
    decreases count
  {
    if count > 0 { GapsTelescope(fires, k, count - 1); }
  }

  lemma {:induction false} FiringsOrdered(fires: Firings, i: nat, j: nat)
    requires i <= j
    ensures fires(i) <= fires(j)
    decreases j - i
  {
    if i < j {
      assert fires(i) < fires(i + 1);
      FiringsOrdered(fires, i + 1, j);
    }
  }

  /** From each run on until the next firing, whose backup is not there yet, the
      newest copies are kept. */
  ghost predicate PromiseKept(fires: Firings, age: int, copies: nat) {
    forall k: nat, now: int | k + 1 >= copies && fires(k) <= now <= fires(k + 1) ::
          NewestKept(Fired(fires, k), now, age, copies)
  }

  /** No stretch of as many consecutive gaps as there are copies is longer than that. */
  ghost predicate GapsWithin(fires: Firings, copies: nat, limit: int) {
    forall k: nat :: GapsFrom(fires, k, copies) <= limit
  }

  /** Retention by age keeps the newest copies at every instant of a schedule if and
      only if no as many consecutive gaps sum to more than the age, whatever the age,
      also one that has wrapped around. */
  lemma PromiseKeptIff(fires: Firings, age: int, copies: nat)
    requires copies >= 1
    ensures PromiseKept(fires, age, copies) <==> GapsWithin(fires, copies, age)
  {
    hide NewestKept;
    if PromiseKept(fires, age, copies) {
      forall k: nat ensures GapsFrom(fires, k, copies) <= age {
        var last := k + copies - 1;
        assert fires(last) < fires(last + 1);
        assert NewestKept(Fired(fires, last), fires(last + 1), age, copies);
        KeptAt(fires, last, fires(last + 1), age, copies);
        GapsTelescope(fires, k, copies);
      }
    }
    if GapsWithin(fires, copies, age) {
      forall k: nat, now: int | k + 1 >= copies && fires(k) <= now <= fires(k + 1)
        ensures NewestKept(Fired(fires, k), now, age, copies)
      {
        var first := k + 1 - copies;
        assert GapsFrom(fires, first, copies) <= age;
        GapsTelescope(fires, first, copies);
        KeptAt(fires, k, now, age, copies);
      }
    }
  }

  lemma KeptAt(fires: Firings, k: nat, now: int, age: int, copies: nat)
    requires 1 <= copies <= k + 1
    ensures NewestKept(Fired(fires, k), now, age, copies) <==> now - fires(k + 1 - copies) <= age
  {
    hide NewestKept;
    var runs := Fired(fires, k);
    forall i, j | 0 <= i < j < |runs| ensures runs[i] <= runs[j] { FiringsOrdered(fires, i, j); }
    NewestKeptIff(runs, now, age, copies);
  }

  /** For count retention: the promise of n copies, or of any other number, holds
      exactly when that many consecutive gaps never exceed n+1 sampled intervals,
      as long as these fit an int64. */
  lemma CountPromiseIff(fires: Firings, interval: int, n: nat, copies: nat)
    requires copies >= 1 && 0 < interval && interval * (n + 1) < TWO63
    ensures PromiseKept(fires, CountAge(interval, n), copies) <==> GapsWithin(fires, copies, interval * (n + 1))
  {
    hide PromiseKept, GapsWithin;
    CountAgeExactIff(interval, n);
    PromiseKeptIff(fires, CountAge(interval, n), copies);
  }

  /** The interval is one sampled gap. A schedule that runs Monday to Friday,
      sampled on a weekday, is left with two copies early on Monday where three
      were asked for. */
  lemma WeekdayScheduleLosesCopies()
    ensures var runs := [0 * DAY, 1 * DAY, 2 * DAY, 3 * DAY, 4 * DAY];
            var now := 7 * DAY - 1;
            |Kept(runs, now, CountAge(1 * DAY, 3))| == 2 < 3
  {
    var runs := [0 * DAY, 1 * DAY, 2 * DAY, 3 * DAY, 4 * DAY];
    CountAgeExactIff(DAY, 3);
    var kept := Kept(runs, 7 * DAY - 1, 4 * DAY);
    assert runs[0] == 0 && runs[1] == DAY && runs[2] == 2 * DAY && runs[3] == 3 * DAY && runs[4] == 4 * DAY;
    assert 3 in kept && 4 in kept && 0 !in kept && 1 !in kept && 2 !in kept;
    assert kept == {3, 4};
  }

  // ----- the retention of a schedule ------------------------------------------

  datatype RetentionType = Time | Count | Unset | Unsupported(name: string)

  datatype RetentionSpec = RetentionSpec(kind: RetentionType, duration: string, count: Option<int>)

  function CountRetention(gap: Option<int>, copies: int): Option<int> {
    if copies <= 0 then Some(KEEP_ALL)
    else match gap
      case None => None
      case Some(g) => Some(CountAge(if g <= 0 then 24 * HOUR else g, copies))
  }

  function Unit(c: char): Option<int> {
    match c
    case 'd' => Some(24 * HOUR)
    case 'w' => Some(7 * 24 * HOUR)
    case 'm' => Some(30 * 24 * HOUR)
    case _ => None
  }

  function ParseDuration(s: string): Option<int> {
    if |s| < 2 then None
    else match (Unit(s[|s| - 1]), Atoi(s[..|s| - 1]))
      case (Some(unit), Some(n)) => if n < 1 then None else Some(Wrap(n * unit))
      case _ => None
  }

  function DeriveMaxRetention(gap: string -> Option<int>, cron: string, retention: Option<RetentionSpec>): Option<int> {
    match retention
    case None => Some(KEEP_ALL)
    case Some(spec) =>
      match spec.kind
      case Time => ParseDuration(spec.duration)
      case Count => CountRetention(gap(cron), if spec.count.Some? then spec.count.value else 0)
      case Unset => CountRetention(gap(cron), if spec.count.Some? then spec.count.value else 0)
      case Unsupported(_) => None
  }

  /** The largest n whose duration in each unit still fits an int64. */
  function LargestExact(c: char): nat {
    match c
    case 'd' => 106751
    case 'w' => 15250
    case 'm' => 3558
    case _ => 0
  }

  lemma AtoiOfPrint(plus: bool, zeros: string, n: nat)
    requires forall i | 0 <= i < |zeros| :: zeros[i] == '0'
    requires n <= INT_MAX
    ensures Atoi((if plus then "+" else "") + (zeros + Print(n))) == Some(n)
  {
    hide Print, Value, Atoi;
    ValueOfPrint(n);
    LeadingZeros(zeros, Print(n));
    AtoiOfDigits(plus, zeros + Print(n));
  }

  lemma AtoiOfDigits(plus: bool, digits: string)
    requires digits != "" && AllDigits(digits) && Value(digits) <= INT_MAX
    ensures Atoi((if plus then "+" else "") + digits) == Some(Value(digits))
  {
    hide Value;
    assert IsDigit(digits[0]);
    if plus {
      assert ("+" + digits)[1..] == digits;
    } else {
      assert "" + digits == digits;
    }
  }

  /** Text the parser is documented to accept: an optional plus, any number of
      zeros, the number, the unit. It reads back as the number times the unit,
      and the int64 product is that number exactly up to the stated bounds. */
  lemma DurationRoundTrip(plus: bool, zeros: string, n: int, c: char)
    requires forall i | 0 <= i < |zeros| :: zeros[i] == '0'
    requires 1 <= n <= INT_MAX && Unit(c).Some?
    ensures ParseDuration((if plus then "+" else "") + (zeros + Print(n)) + [c]) == Some(Wrap(n * Unit(c).value))
    ensures Wrap(n * Unit(c).value) == n * Unit(c).value <==> n <= LargestExact(c)
  {
    ValueOfPrint(n);
    AtoiOfPrint(plus, zeros, n);
    var number := (if plus then "+" else "") + (zeros + Print(n));
    var text := number + [c];
    assert text[..|text| - 1] == number && text[|text| - 1] == c;
    DurationBound(n, c);
  }

  lemma DurationBound(n: int, c: char)
    requires 1 <= n && Unit(c).Some?
    ensures Wrap(n * Unit(c).value) == n * Unit(c).value <==> n <= LargestExact(c)
  {
    WrapExactIff(n * Unit(c).value);
  }

  /** Nothing else is accepted: the accepted texts are an optional sign, digits
      of value at least one that fit an int, and one of the three units. */
  lemma AcceptedDurations(s: string)
    ensures ParseDuration(s).Some? <==>
      && |s| >= 2
      && s[|s| - 1] in {'d', 'w', 'm'}
      && s[0] != '-'
      && var digits := Unsigned(s[..|s| - 1]);
         digits != "" && AllDigits(digits) && 1 <= Value(digits) <= INT_MAX
  {
    if |s| >= 2 { assert s[..|s| - 1][0] == s[0]; }
  }
}
