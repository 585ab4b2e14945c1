/** The idempotency key: mandate id, round, action type and the hour of the schedule, as text. */
module IdempotencyKey {
  import opened Schemas
  import opened Rules

  // ------------------------------------------------------------------ numbers as text

  function Digit(n: nat): char
    requires n < 10
  {
    ('0' as int + n) as char
  }

  function Decimal(n: nat): string {
    if n < 10 then [Digit(n)] else Decimal(n / 10) + [Digit(n % 10)]
  }

  function IntText(n: int): string { if n < 0 then "-" + Decimal(-n) else Decimal(n) }

  function Two(n: nat): string
    requires n < 100
  {
    [Digit(n / 10), Digit(n % 10)]
  }

  predicate NoBar(s: string) { '|' !in s }

  lemma {:induction false} DecimalText(n: nat)
    ensures Decimal(n) != [] && NoBar(Decimal(n)) && '-' !in Decimal(n)
  {
    if n >= 10 {
      DecimalText(n / 10);
    }
  }

  lemma DecimalLength(n: nat)
    ensures n >= 10 <==> |Decimal(n)| >= 2
  {
    DecimalText(n / 10);
  }

  lemma {:induction false} DecimalInjective(m: nat, n: nat)
    requires Decimal(m) == Decimal(n)
    ensures m == n
  {
    DecimalText(m / 10);
    DecimalText(n / 10);
    DecimalLength(m);
    DecimalLength(n);
    if m >= 10 && n >= 10 {
      var a, b := Decimal(m / 10), Decimal(n / 10);
      assert a == Decimal(m)[..|a|] && b == Decimal(n)[..|b|];
      assert Decimal(m)[|a|] == Digit(m % 10) && Decimal(n)[|b|] == Digit(n % 10);
      DecimalInjective(m / 10, n / 10);
    } else {
      assert Decimal(m)[0] == Decimal(n)[0];
    }
  }

  lemma IntTextInjective(m: int, n: int)
    requires IntText(m) == IntText(n)
    ensures m == n
  {
    DecimalText(if m < 0 then -m else m);
    DecimalText(if n < 0 then -n else n);
    assert m < 0 <==> IntText(m)[0] == '-';
    assert n < 0 <==> IntText(n)[0] == '-';
    if m < 0 {
      assert Decimal(-m) == IntText(m)[1..] && Decimal(-n) == IntText(n)[1..];
      DecimalInjective(-m, -n);
    } else {
      DecimalInjective(m, n);
    }
  }

  lemma TwoInjective(m: nat, n: nat)
    requires m < 100 && n < 100 && Two(m) == Two(n)
    ensures m == n
  {
    assert Two(m)[0] == Two(n)[0] && Two(m)[1] == Two(n)[1];
  }

  // ------------------------------------------------------------------ the calendar

  const CYCLE: int := 146_097 // days in 400 Gregorian years

  /** Days before the year with `k` whole years of its 400-year cycle behind it. */
  function DaysBefore(k: nat): nat { 365 * k + k / 4 - k / 100 + k / 400 }

  function YearFrom(day: nat, k: nat): (y: nat)
    requires k < 400 && DaysBefore(k) <= day < CYCLE
    ensures y < 400 && DaysBefore(y) <= day < DaysBefore(y + 1)
    decreases 400 - k
  {
    if day < DaysBefore(k + 1) then k else YearFrom(day, k + 1)
  }

  /** The civil leap rule. */
  predicate LeapYear(year: int) { year % 4 == 0 && (year % 100 != 0 || year % 400 == 0) }

  predicate Leap(k: nat) { DaysBefore(k + 1) - DaysBefore(k) == 366 }

  lemma QuotientSteps(k: nat)
    ensures (k + 1) / 4 == k / 4 + (if (k + 1) % 4 == 0 then 1 else 0)
    ensures (k + 1) / 100 == k / 100 + (if (k + 1) % 100 == 0 then 1 else 0)
    ensures (k + 1) / 400 == k / 400 + (if (k + 1) % 400 == 0 then 1 else 0)
  {
  }

  lemma FourTimes(t: nat)
    ensures (4 * t) % 4 == 0
  {
  }

  lemma HundredTimes(t: nat)
    ensures (100 * t) % 100 == 0
  {
  }

  lemma Multiples(n: nat)
    ensures n % 400 == 0 ==> n % 100 == 0
    ensures n % 100 == 0 ==> n % 4 == 0
  {
    FourTimes(25 * (n / 100));
    HundredTimes(4 * (n / 400));
    assert n == 4 * (25 * (n / 100)) + n % 100;
    assert n == 100 * (4 * (n / 400)) + n % 400;
  }

  /** The day count follows the civil leap rule: year k + 1 of a cycle. */
  lemma LeapRule(k: nat)
    ensures Leap(k) <==> LeapYear(k + 1)
    ensures DaysBefore(k + 1) - DaysBefore(k) == if Leap(k) then 366 else 365
  {
    QuotientSteps(k);
    Multiples(k + 1);
  }

  /** The months of an ordinary year, January being month 0. */
  function MonthDays(m: nat): nat {
    if m == 1 then 28 else if m == 3 || m == 5 || m == 8 || m == 10 then 30 else 31
  }

  function MonthsBefore(m: nat): nat { if m == 0 then 0 else MonthsBefore(m - 1) + MonthDays(m - 1) }

  function MonthStart(m: nat, leap: bool): nat { MonthsBefore(m) + (if leap && m >= 2 then 1 else 0) }

  function YearDays(leap: bool): nat { if leap then 366 else 365 }

  lemma TwelveMonths(leap: bool)
    ensures MonthStart(12, leap) == YearDays(leap)
  {
    assert MonthsBefore(4) == 120;
    assert MonthsBefore(8) == 243;
  }

  lemma {:induction false} MonthsBound(m: nat)
    ensures MonthsBefore(m) <= 31 * m
  {
    if m > 0 {
      MonthsBound(m - 1);
    }
  }

  function MonthFrom(dayOfYear: nat, leap: bool, m: nat): (r: nat)
    requires m < 12 && MonthStart(m, leap) <= dayOfYear < YearDays(leap)
    ensures r < 12 && MonthStart(r, leap) <= dayOfYear < MonthStart(r + 1, leap)
    decreases 12 - m
  {
    TwelveMonths(leap);
    if dayOfYear < MonthStart(m + 1, leap) then m else MonthFrom(dayOfYear, leap, m + 1)
  }

  datatype Date = Date(year: int, month: nat, day: nat)

  lemma WithinYear(day: nat, k: nat)
    requires DaysBefore(k) <= day < DaysBefore(k + 1)
    ensures day - DaysBefore(k) < YearDays(Leap(k))
  {
    LeapRule(k);
  }

  /** The days of month m, with the leap day in February. */
  function DaysIn(m: nat, leap: bool): nat { MonthDays(m) + (if leap && m == 1 then 1 else 0) }

  /** The month of the year that a day of the year falls in. */
  function MonthOf(dayOfYear: nat, leap: bool): (m: nat)
    requires dayOfYear < YearDays(leap)
    ensures m < 12 && MonthStart(m, leap) <= dayOfYear < MonthStart(m, leap) + DaysIn(m, leap)
  {
    MonthsBound(dayOfYear / 32);
    MonthFrom(dayOfYear, leap, dayOfYear / 32)
  }

  function OfYear(year: int, dayOfYear: nat, leap: bool): (d: Date)
    requires dayOfYear < YearDays(leap)
    ensures 1 <= d.month <= 12 && 1 <= d.day <= DaysIn(d.month - 1, leap) && d.year == year
    ensures MonthStart(d.month - 1, leap) + d.day - 1 == dayOfYear
  {
    var m := MonthOf(dayOfYear, leap);
    Date(year, m + 1, dayOfYear - MonthStart(m, leap) + 1)
  }

  lemma YearGuess(day: nat)
    requires day < CYCLE
    ensures day / 366 < 400 && DaysBefore(day / 366) <= day
  {
    var k := day / 366;
    assert k / 4 <= k;
  }

  /** The year of the cycle that a day of the cycle falls in. */
  function YearOf(day: nat): (y: nat)
    requires day < CYCLE
    ensures y < 400 && DaysBefore(y) <= day < DaysBefore(y + 1)
  {
    YearGuess(day);
    YearFrom(day, day / 366)
  }

  function DayIn(cycles: int, k: nat, month: nat, day: nat): int
    requires month >= 1
  {
    cycles * CYCLE + DaysBefore(k) + MonthStart(month - 1, Leap(k)) + day - 1
  }

  /** The inverse: the day of a civil date. */
  function DayOf(d: Date): int
    requires 1 <= d.month <= 12
  {
    DayIn((d.year - 1) / 400, (d.year - 1) % 400, d.month, d.day)
  }

  lemma InCycle(cycles: int, k: nat)
    requires k < 400
    ensures (400 * cycles + k) % 400 == k && (400 * cycles + k) / 400 == cycles
  {
  }

  lemma YearRoundTrip(cycles: int, k: nat, dayOfYear: nat, d: Date)
    requires k < 400 && d.year == 400 * cycles + k + 1 && 1 <= d.month <= 12
    requires MonthStart(d.month - 1, Leap(k)) + d.day - 1 == dayOfYear
    ensures DayOf(d) == cycles * CYCLE + DaysBefore(k) + dayOfYear
  {
    InCycle(cycles, k);
  }

  lemma Remainder4(a: int, n: nat)
    ensures (4 * a + n) % 4 == n % 4
  {
  }

  lemma Remainder100(a: int, n: nat)
    ensures (100 * a + n) % 100 == n % 100
  {
  }

  lemma Remainder400(a: int, n: nat)
    ensures (400 * a + n) % 400 == n % 400
  {
  }

  lemma SameRemainders(cycles: int, n: nat)
    ensures (400 * cycles + n) % 4 == n % 4
    ensures (400 * cycles + n) % 100 == n % 100
    ensures (400 * cycles + n) % 400 == n % 400
  {
    Remainder4(100 * cycles, n);
    Remainder100(4 * cycles, n);
    Remainder400(cycles, n);
  }

  // Leap years recur every 400 years.
  lemma LeapRecurs(cycles: int, k: nat)
    ensures Leap(k) <==> LeapYear(400 * cycles + k + 1)
  {
    LeapRule(k);
    SameRemainders(cycles, k + 1);
  }

  /** A date of the civil calendar. */
  predicate Civil(d: Date) { 1 <= d.month <= 12 && 1 <= d.day <= DaysIn(d.month - 1, LeapYear(d.year)) }

  lemma YearIsCivil(cycles: int, k: nat, d: Date)
    requires d.year == 400 * cycles + k + 1 && 1 <= d.month <= 12 && 1 <= d.day <= DaysIn(d.month - 1, Leap(k))
    ensures Civil(d)
  {
    LeapRecurs(cycles, k);
  }

  function InYear(cycles: int, k: nat, dayOfYear: nat): (d: Date)
    requires k < 400 && dayOfYear < YearDays(Leap(k))
    ensures Civil(d) && DayOf(d) == cycles * CYCLE + DaysBefore(k) + dayOfYear
  {
    var d := OfYear(400 * cycles + k + 1, dayOfYear, Leap(k));
    YearRoundTrip(cycles, k, dayOfYear, d);
    YearIsCivil(cycles, k, d);
    d
  }

  /** The civil date of a day of a 400-year cycle. */
  function DateIn(cycles: int, r: nat): (d: Date)
    requires r < CYCLE
    ensures Civil(d) && DayOf(d) == cycles * CYCLE + r
  {
    var k := YearOf(r);
    WithinYear(r, k);
    InYear(cycles, k, r - DaysBefore(k))
  }

  /** The civil date of a day, day 0 being the first of January of year 1. */
  function DateOf(day: int): (d: Date)
    ensures Civil(d) && DayOf(d) == day
  {
    DateIn(day / CYCLE, day % CYCLE)
  }

  // ------------------------------------------------------------------ the key

  /** The hours counted from the same midnight as the instants. */
  function HourIndex(t: Instant): int { t / DAY * 24 + HourOf(t) }

  /** `%Y%m%dT%H`. */
  function Stamp(t: Instant): string {
    var d := DateOf(t / DAY);
    IntText(d.year) + Two(d.month) + Two(d.day) + "T" + Two(HourOf(t))
  }

  function Name(at: ActionType): string {
    match at
    case Retry => "RETRY"
    case SendNotification => "SEND_NOTIFICATION"
    case OfferAlternateMethod => "OFFER_ALTERNATE_METHOD"
    case GraceExtend => "GRACE_EXTEND"
    case PartialCharge => "PARTIAL_CHARGE"
    case RequestReauth => "REQUEST_REAUTH"
    case StopAndEscalate => "STOP_AND_ESCALATE"
    case NoAction => "NO_ACTION"
  }

  function Key(mandateId: string, roundNo: nat, at: ActionType, scheduledAt: Instant): string {
    mandateId + "|r" + Decimal(roundNo) + "|" + Name(at) + "|" + Stamp(scheduledAt)
  }

  function KeyOf(a: Action): string { Key(a.mandateId, a.keyRound, a.actionType, a.scheduledAt) }

  // ------------------------------------------------------------------ what the key determines

  lemma StampText(t: Instant)
    ensures NoBar(Stamp(t))
  {
    DecimalText(if DateOf(t / DAY).year < 0 then -DateOf(t / DAY).year else DateOf(t / DAY).year);
  }

  lemma SplitFixed(a: string, b: string, a': string, b': string)
    requires a + b == a' + b' && |b| == |b'|
    ensures a == a' && b == b'
  {
    assert |a + b| == |a' + b'|;
    assert a == (a + b)[..|a|] && a' == (a' + b')[..|a'|];
    assert b == (a + b)[|a|..] && b' == (a' + b')[|a'|..];
  }

  lemma HourParts(t: Instant, u: Instant)
    ensures HourIndex(t) == HourIndex(u) <==> t / DAY == u / DAY && HourOf(t) == HourOf(u)
  {
  }

  /** The stamp is the hour: no two hours share one. */
  lemma StampDeterminesHour(t: Instant, u: Instant)
    ensures Stamp(t) == Stamp(u) <==> HourIndex(t) == HourIndex(u)
  {
    var c, d := DateOf(t / DAY), DateOf(u / DAY);
    if Stamp(t) == Stamp(u) {
      var a1 := IntText(c.year) + Two(c.month) + Two(c.day) + "T";
      var b1 := IntText(d.year) + Two(d.month) + Two(d.day) + "T";
      SplitFixed(a1, Two(HourOf(t)), b1, Two(HourOf(u)));
      SplitFixed(IntText(c.year) + Two(c.month) + Two(c.day), "T", IntText(d.year) + Two(d.month) + Two(d.day), "T");
      SplitFixed(IntText(c.year) + Two(c.month), Two(c.day), IntText(d.year) + Two(d.month), Two(d.day));
      SplitFixed(IntText(c.year), Two(c.month), IntText(d.year), Two(d.month));
      TwoInjective(HourOf(t), HourOf(u));
      TwoInjective(c.day, d.day);
      TwoInjective(c.month, d.month);
      IntTextInjective(c.year, d.year);
    }
    HourParts(t, u);
  }

  lemma LastBarAt(a: string, b: string, a': string, b': string)
    requires a + "|" + b == a' + "|" + b' && NoBar(b')
    ensures |a| <= |a'|
  {
    var s := a + "|" + b;
    assert s == (a' + "|") + b' && |a' + "|"| == |a'| + 1;
    forall k | |a'| < k < |s| ensures s[k] != '|' {
      assert s[k] == b'[k - |a'| - 1];
    }
    assert s[|a|] == '|';
  }

  lemma SplitLastBar(a: string, b: string, a': string, b': string)
    requires a + "|" + b == a' + "|" + b' && NoBar(b) && NoBar(b')
    ensures a == a' && b == b'
  {
    LastBarAt(a, b, a', b');
    LastBarAt(a', b', a, b);
    assert |a + "|" + b| == |a| + 1 + |b| && |a' + "|" + b'| == |a'| + 1 + |b'|;
    SplitFixed(a + "|", b, a' + "|", b');
    SplitFixed(a, "|", a', "|");
  }

  lemma NameText(at: ActionType)
    ensures NoBar(Name(at))
  {
  }

  lemma NamesDiffer(at: ActionType, bt: ActionType)
    requires Name(at) == Name(bt)
    ensures at == bt
  {
    assert |Name(at)| == |Name(bt)| && Name(at)[0] == Name(bt)[0] && Name(at)[1] == Name(bt)[1];
  }

  lemma RoundSplits(m: string, r: nat, m': string, r': nat)
    requires m + "|r" + Decimal(r) == m' + "|r" + Decimal(r')
    ensures m == m' && r == r'
  {
    DecimalText(r);
    DecimalText(r');
    var x, x' := "r" + Decimal(r), "r" + Decimal(r');
    assert m + "|r" + Decimal(r) == m + "|" + x && m' + "|r" + Decimal(r') == m' + "|" + x';
    SplitLastBar(m, x, m', x');
    assert x[1..] == Decimal(r) && x'[1..] == Decimal(r');
    DecimalInjective(r, r');
  }

  /** The key determines mandate, round, action type and hour, and nothing else, whatever
      characters the mandate id contains. */
  lemma KeyDetermines(m: string, r: nat, at: ActionType, t: Instant, m': string, r': nat, at': ActionType, t': Instant)
    ensures Key(m, r, at, t) == Key(m', r', at', t') <==>
            m == m' && r == r' && at == at' && HourIndex(t) == HourIndex(t')
  {
    StampDeterminesHour(t, t');
    if Key(m, r, at, t) == Key(m', r', at', t') {
      var n, n' := m + "|r" + Decimal(r), m' + "|r" + Decimal(r');
      StampText(t);
      StampText(t');
      SplitLastBar(n + "|" + Name(at), Stamp(t), n' + "|" + Name(at'), Stamp(t'));
      NameText(at);
      NameText(at');
      SplitLastBar(n, Name(at), n', Name(at'));
      NamesDiffer(at, at');
      RoundSplits(m, r, m', r');
    }
  }
}
