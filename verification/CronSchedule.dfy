/** Local schedules: parsing of intervals, the next occurrence, and the catch-up that finds the
    latest occurrence due at a clock reading. Instants are nanoseconds since the epoch. */
module CronSchedule {
  import opened Runs

  const NS: int := 1_000_000  // nanoseconds in a millisecond

  /** The milliseconds for which the clock library can represent an instant. */
  datatype Range = Range(minMs: int, maxMs: int)

  // An interval in milliseconds, or a calendar given by its next-occurrence oracle.
  datatype Schedule = Interval(ms: nat) | Calendar(after: int -> Option<int>)

  datatype Due = Due(latest: int, next: int, missed: bool)

  // ---- Interval expressions ----

  function Digit(c: char): Option<nat> {
    if '0' <= c <= '9' then Some((c - '0') as nat) else None
  }

  function Number(digits: string): Option<nat> {
    if |digits| == 0 then Some(0)
    else
      match (Number(digits[..|digits| - 1]), Digit(digits[|digits| - 1]))
      case (Some(n), Some(d)) => Some(10 * n + d)
      case _ => None
  }

  function Decimal(n: nat): string {
    if n < 10 then ['0' + n as char] else Decimal(n / 10) + ['0' + (n % 10) as char]
  }

  /** The `@every` branch of the parser. */
  function ParseInterval(expression: string): Option<nat> {
    var prefix, suffix := "@every ", "ms";
    if |expression| < |prefix| + |suffix| || expression[..|prefix|] != prefix
       || expression[|expression| - |suffix|..] != suffix then None
    else
      var digits := expression[|prefix|..|expression| - |suffix|];
      if digits == "" || |digits| > 8 || digits[0] == '0' then None
      else
        match Number(digits)
        case None => None
        case Some(n) => if 10 <= n <= 86400000 then Some(n) else None
  }

  lemma {:induction false} NumberOfDecimal(n: nat)
    ensures Number(Decimal(n)) == Some(n) && |Decimal(n)| > 0
    ensures n > 0 ==> Decimal(n)[0] != '0'
  {
    if n >= 10 {
      NumberOfDecimal(n / 10);
      var s := Decimal(n);
      assert s[..|s| - 1] == Decimal(n / 10);
    } else {
      assert Decimal(n)[..0] == "";
    }
  }

  lemma {:induction false} DecimalOfNumber(digits: string)
    requires |digits| > 0 && digits[0] != '0' && Number(digits).Some?
    ensures Number(digits).value > 0 && digits == Decimal(Number(digits).value)
  {
    var n := |digits| - 1;
    if n == 0 {
      assert digits[..0] == "";
    } else {
      DecimalOfNumber(digits[..n]);
      assert digits == digits[..n] + [digits[n]];
    }
  }

  lemma {:induction false} DecimalLength(n: nat, k: nat)
    requires n < Pow10(k) && k > 0
    ensures |Decimal(n)| <= k
  {
    if n >= 10 { DecimalLength(n / 10, k - 1); }
  }

  function Pow10(k: nat): nat {
    if k == 0 then 1 else 10 * Pow10(k - 1)
  }

  /** Exactly the canonical decimal intervals from 10 ms to one day are accepted. */
  lemma IntervalsAreCanonical(expression: string, n: nat)
    ensures ParseInterval(expression) == Some(n) <==>
              10 <= n <= 86400000 && expression == "@every " + Decimal(n) + "ms"
  {
    var k := |expression|;
    if 10 <= n <= 86400000 && expression == "@every " + Decimal(n) + "ms" {
      NumberOfDecimal(n);
      assert Pow10(8) == 100_000_000;
      DecimalLength(n, 8);
      assert expression[..7] == "@every " && expression[k - 2..] == "ms" && expression[7..k - 2] == Decimal(n);
    }
    if ParseInterval(expression) == Some(n) {
      DecimalOfNumber(expression[7..k - 2]);
      assert expression == expression[..7] + expression[7..k - 2] + expression[k - 2..];
    }
  }

  // ---- Next occurrence ----

  function FloorMs(t: int): int {
    t / NS
  }

  /** `num_milliseconds` of a duration, which truncates towards zero. */
  function TruncMs(d: int): int {
    if d >= 0 then d / NS else -((-d) / NS)
  }

  predicate Aligned(t: int) {
    t % NS == 0
  }

  predicate InRange(r: Range, t: int) {
    r.minMs <= FloorMs(t) <= r.maxMs
  }

  function Next(r: Range, s: Schedule, after: int): Option<int> {
    match s
    case Interval(ms) =>
      var next := FloorMs(after) + ms;
      if r.minMs <= next <= r.maxMs then Some(next * NS) else None
    case Calendar(oracle) => oracle(after)
  }

  /** What a schedule promises: each occurrence lies after the instant it was asked for. */
  ghost predicate Rising(s: Schedule) {
    match s
    case Interval(ms) => ms > 0
    case Calendar(oracle) => forall t :: oracle(t).Some? ==> oracle(t).value > t
  }

  lemma NextIsLater(r: Range, s: Schedule, t: int)
    requires Rising(s) && Next(r, s, t).Some?
    ensures Next(r, s, t).value > t
  {
  }

  // ---- Catch-up by stepping ----

  ghost function StepFrom(r: Range, s: Schedule, latest: int, next: int, now: int, missed: bool): Option<Due>
    requires Rising(s) && latest < next
    decreases now - next
  {
    if next > now then Some(Due(latest, next, missed))
    else if Next(r, s, next).None? then None
    else
      NextIsLater(r, s, next);
      StepFrom(r, s, next, Next(r, s, next).value, now, true)
  }

  /** The occurrences are walked one by one. */
  ghost function Stepped(r: Range, s: Schedule, first: int, now: int): Option<Due>
    requires Rising(s)
  {
    if Next(r, s, first).None? then None
    else
      NextIsLater(r, s, first);
      StepFrom(r, s, first, Next(r, s, first).value, now, false)
  }

  /** The calendar branch of `due`. */
  method DueByStepping(r: Range, s: Schedule, first: int, now: int) returns (due: Option<Due>)
    requires Rising(s)
    ensures due == Stepped(r, s, first, now)
  {
    var n := Next(r, s, first);
    if n.None? { return None; }
    NextIsLater(r, s, first);
    var latest, next, missed := first, n.value, false;
    while next <= now
      invariant latest < next
      invariant Stepped(r, s, first, now) == StepFrom(r, s, latest, next, now, missed)
      decreases now - next
    {
      n := Next(r, s, next);
      if n.None? { return None; }
      NextIsLater(r, s, next);
      latest, missed, next := next, true, n.value;
    }
    return Some(Due(latest, next, missed));
  }

  // ---- What catching up means ----

  /** The `k`-th occurrence counted from `first`. */
  ghost function Nth(r: Range, s: Schedule, first: int, k: nat): Option<int>
    decreases k
  {
    if k == 0 then Some(first)
    else
      match Next(r, s, first)
      case None => None
      case Some(t) => Nth(r, s, t, k - 1)
  }

  /** Occurrence number `k` is in force at `now`: the last one not after it. */
  ghost predicate InForce(r: Range, s: Schedule, first: int, now: int, latest: int, next: int, k: nat) {
    Nth(r, s, first, k) == Some(latest) && Nth(r, s, first, k + 1) == Some(next) && latest <= now < next
  }

  lemma FirstInForce(r: Range, s: Schedule, first: int, now: int)
    requires Next(r, s, first).Some? && first <= now < Next(r, s, first).value
    ensures InForce(r, s, first, now, first, Next(r, s, first).value, 0)
  {
    assert Nth(r, s, Next(r, s, first).value, 0) == Next(r, s, first);
  }

  lemma {:induction false} StepFromInForce(r: Range, s: Schedule, latest: int, next: int, now: int, missed: bool)
      returns (k: nat)
    requires Rising(s) && latest <= now && Next(r, s, latest) == Some(next) && latest < next
    ensures
      match StepFrom(r, s, latest, next, now, missed)
      case Some(due) => InForce(r, s, latest, now, due.latest, due.next, k) && due.missed == (missed || k > 0)
      case None => forall l, n, i: nat :: !InForce(r, s, latest, now, l, n, i)
    decreases now - next
  {
    if next > now {
      FirstInForce(r, s, latest, now);
      k := 0;
    } else {
      k := 1;
      var later := Next(r, s, next);
      if later.Some? {
        NextIsLater(r, s, next);
        var j := StepFromInForce(r, s, next, later.value, now, true);
        k := j + 1;
      }
      if StepFrom(r, s, latest, next, now, missed).None? {
        forall l, n, i: nat ensures !InForce(r, s, latest, now, l, n, i) {
          assert Nth(r, s, latest, i + 1) == Nth(r, s, next, i);
          if i == 0 {
            assert Nth(r, s, next, 0) == Some(next);
          } else if later.Some? {
            assert !InForce(r, s, next, now, l, n, i - 1);
          }
        }
      }
    }
  }

  lemma {:induction false} NthRises(r: Range, s: Schedule, first: int, i: nat, j: nat)
    requires Rising(s) && i < j && Nth(r, s, first, j).Some?
    ensures Nth(r, s, first, i).Some? && Nth(r, s, first, i).value < Nth(r, s, first, j).value
    decreases j
  {
    NextIsLater(r, s, first);
    var t := Next(r, s, first).value;
    if i > 0 {
      NthRises(r, s, t, i - 1, j - 1);
    } else if j > 1 {
      NthRises(r, s, t, 0, j - 1);
    }
  }

  lemma InForceIsUnique(r: Range, s: Schedule, first: int, now: int, l: int, n: int, i: nat, l': int, n': int, j: nat)
    requires Rising(s) && InForce(r, s, first, now, l, n, i) && InForce(r, s, first, now, l', n', j)
    ensures i == j && l == l' && n == n'
  {
    if i + 1 < j { NthRises(r, s, first, i + 1, j); }
    if j + 1 < i { NthRises(r, s, first, j + 1, i); }
  }

  /** Stepping answers exactly with the occurrence in force, on every schedule, and fails exactly
      when the schedule ends before one is found. */
  lemma SteppedIsInForce(r: Range, s: Schedule, first: int, now: int, due: Due)
    requires Rising(s) && first <= now
    ensures Stepped(r, s, first, now) == Some(due) <==>
              exists k: nat :: InForce(r, s, first, now, due.latest, due.next, k) && due.missed == (k > 0)
  {
    match Next(r, s, first)
    case None =>
      forall k: nat ensures !InForce(r, s, first, now, due.latest, due.next, k) {
        assert Nth(r, s, first, k + 1) == None;
      }
    case Some(next) =>
      NextIsLater(r, s, first);
      var k := StepFromInForce(r, s, first, next, now, false);
      var found := Stepped(r, s, first, now);
      if found.Some? {
        forall j: nat | InForce(r, s, first, now, due.latest, due.next, j) && due.missed == (j > 0)
          ensures due == found.value
        {
          InForceIsUnique(r, s, first, now, due.latest, due.next, j, found.value.latest, found.value.next, k);
        }
      }
  }

  // ---- Catch-up in constant time ----

  /** The interval branch of `due`. */
  function DueByDivision(r: Range, ms: nat, first: int, now: int): Option<Due>
    requires ms > 0 && first <= now
  {
    var skipped := TruncMs(now - first) / ms;
    var latest := first + skipped * ms * NS;
    match Next(r, Interval(ms), latest)
    case None => None
    case Some(next) => Some(Due(latest, next, skipped > 0))
  }

  lemma FloorLaws(a: int, b: int)
    ensures a * NS <= b <==> a <= FloorMs(b)
    ensures FloorMs(a * NS) == a && Aligned(a * NS)
    ensures FloorMs(b - a * NS) == FloorMs(b) - a
  {
  }

  lemma Monotone(a: nat, b: nat, ms: nat)
    requires a <= b
    ensures a * ms <= b * ms
  {
  }

  /** Stepping an interval from an occurrence at `at` ms, with `left` intervals still due. */
  lemma {:induction false} SteppedInterval(r: Range, ms: nat, latest: int, at: int, now: int, missed: bool, left: nat)
    requires ms > 0 && latest < at * NS && InRange(r, now) && r.minMs <= at
    requires at + left * ms <= FloorMs(now) + ms < at + (left + 1) * ms
    ensures StepFrom(r, Interval(ms), latest, at * NS, now, missed) ==
            if left == 0 then Some(Due(latest, at * NS, missed))
            else if at + left * ms > r.maxMs then None
            else Some(Due((at + (left - 1) * ms) * NS, (at + left * ms) * NS, true))
    decreases left
  {
    FloorLaws(at, now);
    FloorLaws(at, at * NS);
    if left > 0 {
      assert left * ms == (left - 1) * ms + ms;
      assert (left + 1) * ms == left * ms + ms;
      if at + ms <= r.maxMs {
        SteppedInterval(r, ms, at * NS, at + ms, now, true, left - 1);
      } else {
        Monotone(1, left, ms);
      }
    }
  }

  /** The number of whole intervals from `first` to `now`, counted on floored milliseconds. */
  function Passed(ms: nat, first: int, now: int): (k: nat)
    requires ms > 0 && first <= now
    ensures k * ms <= FloorMs(now) - FloorMs(first) < k * ms + ms
  {
    (FloorMs(now) - FloorMs(first)) / ms
  }

  /** Stepping any interval, aligned or not, in closed form. */
  lemma SteppedClosed(r: Range, ms: nat, first: int, now: int)
    requires ms > 0 && first <= now && InRange(r, first) && InRange(r, now)
    ensures
      var (k, at) := (Passed(ms, first, now), FloorMs(first) + ms);
      Stepped(r, Interval(ms), first, now) ==
      if at + k * ms > r.maxMs then None
      else if k == 0 then Some(Due(first, at * NS, false))
      else Some(Due((at + (k - 1) * ms) * NS, (at + k * ms) * NS, true))
  {
    var k, at := Passed(ms, first, now), FloorMs(first) + ms;
    assert (k + 1) * ms == k * ms + ms;
    if at <= r.maxMs {
      SteppedInterval(r, ms, first, at, now, false, k);
    } else {
      Monotone(0, k, ms);
    }
  }

  /** The division finds what the stepping finds, overflow of the clock's range included. */
  lemma DivisionMeetsStepping(r: Range, ms: nat, first: int, now: int)
    requires ms > 0 && Aligned(first) && first <= now && InRange(r, first) && InRange(r, now)
    ensures DueByDivision(r, ms, first, now) == Stepped(r, Interval(ms), first, now)
  {
    var k, a := Passed(ms, first, now), FloorMs(first);
    SteppedClosed(r, ms, first, now);
    assert first == a * NS;
    FloorLaws(a, now);
    assert TruncMs(now - first) / ms == k;
    assert first + k * ms * NS == (a + k * ms) * NS;
    FloorLaws(a + k * ms, 0);
    Monotone(0, k, ms);
    if k > 0 { assert ms + (k - 1) * ms == k * ms; }
  }

  lemma Shifted(t: int, n: int)
    ensures (t + n * NS) % NS == t % NS && FloorMs(t + n * NS) == FloorMs(t) + n
  {
  }

  lemma DivisionLags(ms: nat, first: int, now: int)
    requires ms > 0 && first <= now
    ensures 0 <= TruncMs(now - first) / ms <= Passed(ms, first, now)
  {
    var skipped := TruncMs(now - first) / ms;
    assert TruncMs(now - first) <= FloorMs(now) - FloorMs(first);
    assert skipped * ms <= TruncMs(now - first);
    if Passed(ms, first, now) < skipped { Monotone(Passed(ms, first, now) + 1, skipped, ms); }
  }

  /** On any start the two agree exactly when it lies on a millisecond, or nothing after it is
      due, or the division already runs out of the clock's range. */
  lemma DivisionNeedsAlignment(r: Range, ms: nat, first: int, now: int)
    requires ms > 0 && first <= now && InRange(r, first) && InRange(r, now)
    ensures DueByDivision(r, ms, first, now) == Stepped(r, Interval(ms), first, now) <==>
              || Aligned(first) || now < (FloorMs(first) + ms) * NS
              || FloorMs(first) + TruncMs(now - first) / ms * ms + ms > r.maxMs
  {
    var k, a := Passed(ms, first, now), FloorMs(first);
    var skipped := TruncMs(now - first) / ms;
    SteppedClosed(r, ms, first, now);
    FloorLaws(a + ms, now);
    DivisionLags(ms, first, now);
    Monotone(skipped, k, ms);
    Monotone(0, skipped, ms);
    Shifted(first, skipped * ms);
    if Aligned(first) {
      DivisionMeetsStepping(r, ms, first, now);
    } else if k > 0 {
      Monotone(1, k, ms);
      FloorLaws(a + ms + (k - 1) * ms, 0);
    }
  }

  /** One nanosecond past a millisecond, the division announces as next an occurrence that is
      already due, where stepping has moved on. */
  lemma UnalignedStartDiffers()
    ensures var (r, first, now) := (Range(0, 100), 1, 10 * NS);
            && DueByDivision(r, 10, first, now) == Some(Due(1, 10 * NS, false))
            && Stepped(r, Interval(10), first, now) == Some(Due(10 * NS, 20 * NS, true))
  {
    SteppedClosed(Range(0, 100), 10, 1, 10 * NS);
    assert Passed(10, 1, 10 * NS) == 1;
  }
}
