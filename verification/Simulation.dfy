/** Shared vocabulary: delay buckets, the snap to a bucket, the intervention-to-action table. */
module Simulation {
  import opened Schemas

  const DELAY_BUCKETS: seq<nat> := [0, 6, 24, 48, 72, 120, 168]
  const SNAP_TOLERANCE: real := 0.000000001

  predicate AtOrBefore(bucket: nat, delayHours: real) {
    bucket as real <= delayHours + SNAP_TOLERANCE
  }

  /** The last bucket at or before the delay, 0 when there is none. */
  function SnapDelay(delayHours: real): (b: nat)
    ensures b in DELAY_BUCKETS
    ensures b as real <= delayHours + 0.000000001 || b == 0
    ensures forall c | c in DELAY_BUCKETS && c as real <= delayHours + 0.000000001 :: c <= b
  {
    var d := DELAY_BUCKETS;
    assert d == [0, 6, 24, 48, 72, 120, 168];
    if AtOrBefore(d[6], delayHours) then d[6]
    else if AtOrBefore(d[5], delayHours) then d[5]
    else if AtOrBefore(d[4], delayHours) then d[4]
    else if AtOrBefore(d[3], delayHours) then d[3]
    else if AtOrBefore(d[2], delayHours) then d[2]
    else if AtOrBefore(d[1], delayHours) then d[1]
    else d[0]
  }

  lemma SnapUnique(delayHours: real, best: nat)
    requires best in DELAY_BUCKETS && (AtOrBefore(best, delayHours) || best == 0)
    requires forall c | c in DELAY_BUCKETS && AtOrBefore(c, delayHours) :: c <= best
    ensures best == SnapDelay(delayHours)
  {
    var b := SnapDelay(delayHours);
    assert b in DELAY_BUCKETS && best in DELAY_BUCKETS;
  }

  method Snap(delayHours: real) returns (best: nat)
    ensures best == SnapDelay(delayHours)
  {
    best := DELAY_BUCKETS[0];
    for i := 0 to |DELAY_BUCKETS|
      invariant best in DELAY_BUCKETS
      invariant AtOrBefore(best, delayHours) || best == 0
      invariant forall c | c in DELAY_BUCKETS[..i] && AtOrBefore(c, delayHours) :: c <= best
      invariant i < |DELAY_BUCKETS| ==> best <= DELAY_BUCKETS[i]
    {
      assert DELAY_BUCKETS[..i + 1] == DELAY_BUCKETS[..i] + [DELAY_BUCKETS[i]];
      if AtOrBefore(DELAY_BUCKETS[i], delayHours) {
        best := DELAY_BUCKETS[i];
      }
    }
    assert DELAY_BUCKETS[..|DELAY_BUCKETS|] == DELAY_BUCKETS;
    SnapUnique(delayHours, best);
  }

  /** Advice that already names a bucket is left alone. */
  lemma SnapFixesBuckets(b: nat)
    requires b in DELAY_BUCKETS
    ensures SnapDelay(b as real) == b
  {
    assert AtOrBefore(b, b as real);
  }

  function IntentOf(i: InterventionType): ActionType {
    match i
    case NoOp => NoAction
    case RetryOnly => Retry
    case WhatsappUpiLink => SendNotification
    case SmsReminder => SendNotification
    case Grace48h => GraceExtend
    case PartialChargeArm => PartialCharge
    case MethodSwitch => OfferAlternateMethod
    case ReauthLink => RequestReauth
  }

  /** `int(round(0.6 * amount))`: six tenths, to the nearest paisa. */
  function Partial(amount: Paise): Paise {
    (6 * amount + 5) / 10
  }

  /** The integer form is the rounded product: the only integer within half a paisa of six
      tenths, so no tie ever has to be broken; it never exceeds the full amount. */
  lemma PartialIsNearest(amount: Paise, p: int)
    ensures p == Partial(amount) <==> -5 < 10 * p - 6 * amount < 5
    ensures Partial(amount) <= amount
  {
    var k := 5 * Partial(amount) - 3 * amount;
    assert 10 * Partial(amount) - 6 * amount == 2 * k;
  }
}
