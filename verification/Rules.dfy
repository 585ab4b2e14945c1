/** The hard-rule predicates, the loop state they read, and the quiet-hours clamp. */
module Rules {
  import opened Schemas

  /** One moment of the per-mandate loop state. */
  datatype State = State(
    now: Instant,
    roundNo: nat,
    retriesUsed: nat,
    contacts: nat,
    declines: nat,
    graceUsed: bool,
    lastNotice: Option<Instant>,
    reauthDone: bool)

  /** The mutable record the agent owns and the engine reads. */
  class LoopState {
    var now: Instant
    var roundNo: nat
    var retriesUsed: nat
    var contacts: nat
    var declines: nat
    var graceUsed: bool
    var lastNotice: Option<Instant>
    var reauthDone: bool

    constructor (now: Instant, contacts: nat, graceUsed: bool)
      ensures View() == State(now, 0, 0, contacts, 0, graceUsed, None, false)
    {
      this.now, this.contacts, this.graceUsed := now, contacts, graceUsed;
      roundNo, retriesUsed, declines := 0, 0, 0;
      lastNotice, reauthDone := None, false;
    }

    function View(): State
      reads this
    {
      State(now, roundNo, retriesUsed, contacts, declines, graceUsed, lastNotice, reauthDone)
    }
  }

  predicate Confident(d: TypedDiagnosis) { d.confidence >= LOW_CONFIDENCE }

  predicate Live(e: FailureEvent, d: TypedDiagnosis) {
    !(Dead(e.mandateState) || DeadCause(d.cause))
  }

  predicate RetryBudgetLeft(st: State) { st.retriesUsed < NPCI_MAX_RETRIES }

  predicate NoticeGiven(st: State, scheduledAt: Instant) {
    st.lastNotice.Some? && scheduledAt - st.lastNotice.value >= PREDEBIT_NOTICE
  }

  function HourOf(t: Instant): (h: nat)
    ensures h < 24
  {
    (t % DAY) / HOUR
  }

  predicate Quiet(t: Instant) { HourOf(t) >= QUIET_START || HourOf(t) < QUIET_END }

  predicate ContactBudgetLeft(st: State) { st.contacts < MAX_CONTACTS }

  predicate Economic(pRecover: Probability, amount: Paise) {
    pRecover * (amount as real) >= OUTREACH_FLOOR
  }

  predicate MayContinue(st: State) { st.declines < NPCI_MAX_RETRIES }

  predicate WithinCap(amount: int, e: FailureEvent) { amount <= e.maxAmount }

  predicate AfaSatisfied(amount: int, reauthDone: bool) { amount <= AFA_CEILING || reauthDone }

  /** Push an instant forward to the next 08:00 when it falls in quiet hours. */
  function ClampOutOfQuiet(t: Instant): Instant {
    if HourOf(t) >= QUIET_START then t + DAY - (t + DAY) % DAY + QUIET_END * HOUR
    else if HourOf(t) < QUIET_END then t - t % DAY + QUIET_END * HOUR
    else t
  }

  // Within one day the hour only depends on the distance from midnight.
  lemma HourWithin(day: int, offset: int)
    requires 0 <= offset < DAY
    ensures (day * DAY + offset) % DAY == offset
    ensures HourOf(day * DAY + offset) == offset / HOUR
  {
    var t := day * DAY + offset;
    assert t == (t / DAY) * DAY + t % DAY;
  }

  lemma HourBounds(offset: int, h: int)
    requires 0 <= offset < DAY
    ensures offset / HOUR >= h <==> offset >= h * HOUR
  {
  }

  /** The clamp is the least instant at or after its input that the quiet-hours rule accepts. */
  lemma ClampIsLeast(t: Instant)
    ensures t <= ClampOutOfQuiet(t)
    ensures !Quiet(ClampOutOfQuiet(t))
    ensures forall u: Instant | t <= u < ClampOutOfQuiet(t) :: Quiet(u)
  {
    var day, off := t / DAY, t % DAY;
    assert t == day * DAY + off;
    HourWithin(day, off);
    HourBounds(off, QUIET_START);
    HourBounds(off, QUIET_END);
    assert t + DAY == (day + 1) * DAY + off;
    HourWithin(day + 1, off);
    HourWithin(day, QUIET_END * HOUR);
    HourWithin(day + 1, QUIET_END * HOUR);
    forall u: Instant | t <= u < ClampOutOfQuiet(t) ensures Quiet(u) {
      if u < (day + 1) * DAY {
        HourWithin(day, u - day * DAY);
        HourBounds(u - day * DAY, QUIET_START);
        HourBounds(u - day * DAY, QUIET_END);
      } else {
        HourWithin(day + 1, u - (day + 1) * DAY);
        HourBounds(u - (day + 1) * DAY, QUIET_END);
      }
    }
  }

  /** So the clamp fixes exactly the instants the rule accepts, is idempotent and is monotone. */
  lemma ClampIsAClosure(t: Instant, u: Instant)
    ensures ClampOutOfQuiet(t) == t <==> !Quiet(t)
    ensures ClampOutOfQuiet(ClampOutOfQuiet(t)) == ClampOutOfQuiet(t)
    ensures t <= u ==> ClampOutOfQuiet(t) <= ClampOutOfQuiet(u)
  {
    ClampIsLeast(t);
    ClampIsLeast(u);
    ClampIsLeast(ClampOutOfQuiet(t));
  }

  lemma SameDay(t: Instant, day: int)
    requires day * DAY <= t < day * DAY + DAY
    ensures t / DAY == day && t % DAY == t - day * DAY
  {
    HourWithin(day, t - day * DAY);
  }

  /** The hours in which a contact may land: from eight in the morning until before nine at night. */
  lemma QuietMeans(t: Instant)
    ensures !Quiet(t) <==> exists day: int :: day * DAY + 8 * HOUR <= t < day * DAY + 21 * HOUR
  {
    var d, off := t / DAY, t % DAY;
    assert t == d * DAY + off;
    HourWithin(d, off);
    HourBounds(off, 8);
    HourBounds(off, 21);
    if day: int :| day * DAY + 8 * HOUR <= t < day * DAY + 21 * HOUR {
      SameDay(t, day);
    }
  }

  /** Every threshold of the policy, boundary included: an amount at the ceiling or at the cap passes,
      a notice of exactly a day suffices, an outreach worth exactly its price is sent, and the third
      retry, decline or contact is the last. */
  lemma ThresholdsAreExact(e: FailureEvent, d: TypedDiagnosis, st: State, amount: Paise, p: Probability, t: Instant)
    ensures Confident(d) <==> d.confidence >= 0.55
    ensures RetryBudgetLeft(st) <==> st.retriesUsed <= 2
    ensures MayContinue(st) <==> st.declines <= 2
    ensures ContactBudgetLeft(st) <==> st.contacts <= 2
    ensures NoticeGiven(st, t) <==> st.lastNotice.Some? && st.lastNotice.value + 86_400_000_000 <= t
    ensures Economic(p, amount) <==> p * (amount as real) >= 150.0
    ensures WithinCap(amount, e) <==> !(amount > e.maxAmount)
    ensures AfaSatisfied(amount, st.reauthDone) <==> !(amount > 1_500_000 && !st.reauthDone)
    ensures Live(e, d) <==> e.mandateState == Active && d.cause != MandatePaused && d.cause != MandateExpired
  {
  }
}
