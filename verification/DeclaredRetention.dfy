/** How long backups are kept, in nanoseconds, read off the declaration
    (internal/provider/backup_schedule.go). */
module DeclaredRetention {
  import opened Kube
  import opened Decimal
  import opened Retention
  import opened Instances

  /** What a Go computation of x over int64 ends up with. */
  predicate Int64Of(x: int, age: int) {
    -0x8000_0000_0000_0000 <= age < 0x8000_0000_0000_0000 && (x - age) % 0x1_0000_0000_0000_0000 == 0
  }

  /** A hundred years, in nanoseconds. */
  const ALWAYS := 100 * 365 * 86_400_000_000_000

  function UnitNanos(c: char): int {
    if c == 'd' then 86_400_000_000_000
    else if c == 'w' then 604_800_000_000_000
    else if c == 'm' then 2_592_000_000_000_000
    else 0
  }

  /** A number, perhaps with a plus, and one of the three units. */
  predicate LastsFor(text: string, age: int) {
    && |text| >= 2 && text[|text| - 1] in {'d', 'w', 'm'}
    && var number := text[..|text| - 1];
       var digits := if number[0] == '+' then number[1..] else number;
       && digits != "" && AllDigits(digits) && 1 <= Value(digits) < 0x8000_0000_0000_0000
       && Int64Of(Value(digits) * UnitNanos(text[|text| - 1]), age)
  }

  /** So many sampled intervals, and one more; a day when none could be sampled. */
  predicate CopiesFor(gap: Option<int>, copies: int, age: int) {
    if copies <= 0 then age == ALWAYS
    else gap.Some? && Int64Of((if gap.value > 0 then gap.value else 86_400_000_000_000) * (copies + 1), age)
  }

  predicate KeptFor(gap: string -> Option<int>, schedule: Schedule, age: int) {
    match schedule.retention
    case None => age == ALWAYS
    case Some(spec) =>
      match spec.kind
      case Time => LastsFor(spec.duration, age)
      case Unsupported(_) => false
      case _ => CopiesFor(gap(schedule.cron), if spec.count.Some? then spec.count.value else 0, age)
  }

  lemma WrapIs(x: int, age: int)
    ensures Wrap(x) == age <==> Int64Of(x, age)
  {
    var q := (x + TWO63) / TWO64;
    assert x - Wrap(x) == q * TWO64;
    if Int64Of(x, age) {
      var p := (x - age) / TWO64;
      assert x - age == p * TWO64;
      assert (p - q) * TWO64 == Wrap(x) - age;
    }
  }

  /** Exactly which retentions derive, and which age. */
  lemma RetentionKept(gap: string -> Option<int>, schedule: Schedule, age: int)
    ensures DeriveMaxRetention(gap, schedule.cron, schedule.retention) == Some(age) <==> KeptFor(gap, schedule, age)
  {
    if schedule.retention.Some? {
      var spec := schedule.retention.value;
      if spec.kind.Time? {
        DurationKept(spec.duration, age);
      } else {
        CountKept(gap(schedule.cron), if spec.count.Some? then spec.count.value else 0, age);
      }
    }
  }

  lemma CountKept(gap: Option<int>, copies: int, age: int)
    ensures CountRetention(gap, copies) == Some(age) <==> CopiesFor(gap, copies, age)
  {
    hide Wrap, Int64Of;
    if copies > 0 && gap.Some? {
      var interval := if gap.value > 0 then gap.value else DAY;
      WrapWrap(interval * copies, interval);
      assert interval * copies + interval == interval * (copies + 1);
      WrapIs(interval * (copies + 1), age);
    }
  }

  lemma DurationKept(text: string, age: int)
    ensures ParseDuration(text) == Some(age) <==> LastsFor(text, age)
  {
    hide Wrap, Int64Of, Value;
    AcceptedDurations(text);
    if ParseDuration(text).Some? {
      var digits := Unsigned(text[..|text| - 1]);
      assert text[..|text| - 1][0] == text[0];
      WrapIs(Value(digits) * UnitNanos(text[|text| - 1]), age);
    }
  }
}
