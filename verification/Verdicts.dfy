/** Every finding of the compliance checker, and how many of each there are. */
module Verdicts {
  import opened Schemas
  import opened Rules
  import opened Invariants

  // ------------------------------------------------------------------ offences, on the timeline itself

  ghost predicate Unnoticed(tl: seq<ExecutionResult>, c: ExecutionResult) { IsCharge(c) && !HasNotice(tl, c) }

  predicate Untimely(c: ExecutionResult) { IsContact(c) && Quiet(c.action.scheduledAt) }

  predicate Excessive(e: FailureEvent, c: ExecutionResult) { IsCharge(c) && AmountOf(c) > e.maxAmount }

  ghost predicate Unauthorized(tl: seq<ExecutionResult>, c: ExecutionResult) {
    IsCharge(c) && AmountOf(c) > AFA_CEILING && !HasReauth(tl, c)
  }

  predicate Unexplained(x: ExecutionResult) { x.executed && x.action.trace == [] }

  predicate Overcontacted(e: FailureEvent, n: nat) { n > 0 && e.contactsThisWeek + n > 3 }

  /** What each finding says of a timeline, its figures included. */
  ghost predicate Offence(e: FailureEvent, tl: seq<ExecutionResult>, v: Violation) {
    match v
    case NpciRetryCapExceeded(n) => n == |Select(tl, IsCharge)| && n > 3
    case PredebitNoticeMissing(t) => exists c :: c in tl && Unnoticed(tl, c) && t == c.action.scheduledAt
    case ContactInQuietHours(at, h) =>
      exists c :: c in tl && Untimely(c) && at == c.action.actionType && h == HourOf(c.action.scheduledAt)
    case ContactFrequencyExceeded(n, budget) =>
      && n == |Select(tl, IsContact)| && Overcontacted(e, n)
      && budget == if e.contactsThisWeek < 3 then 3 - e.contactsThisWeek else 0
    case DeadMandateCharged(n) => e.mandateState != Active && n == |Select(tl, IsCharge)| && n > 0
    case AmountOverCap(a) => exists c :: c in tl && Excessive(e, c) && a == AmountOf(c)
    case AfaMissing(a) => exists c :: c in tl && Unauthorized(tl, c) && a == AmountOf(c)
    case EmptyRuleTrace(at) => exists x :: x in tl && Unexplained(x) && at == x.action.actionType
  }

  // ------------------------------------------------------------------ which findings there are

  lemma {:induction false} InCollect(xs: seq<ExecutionResult>, find: ExecutionResult -> seq<Violation>, v: Violation)
    ensures v in Collect(xs, find) <==> exists x :: x in xs && v in find(x)
  {
    if xs != [] {
      var init, last := xs[..|xs| - 1], xs[|xs| - 1];
      assert xs == init + [last];
      InCollect(init, find, v);
    }
  }

  lemma InFindings(e: FailureEvent, tl: seq<ExecutionResult>, v: Violation)
    ensures var charges, contacts := Select(tl, IsCharge), Select(tl, IsContact);
            v in Findings(e, tl) <==>
              || v in When(|charges| > NPCI_MAX_RETRIES, NpciRetryCapExceeded(|charges|))
              || v in Collect(charges, NoticeFinding(Select(tl, IsNotice)))
              || v in Collect(contacts, QuietFinding)
              || v in When(|contacts| > Budget(e), ContactFrequencyExceeded(|contacts|, Budget(e)))
              || v in When(Dead(e.mandateState) && charges != [], DeadMandateCharged(|charges|))
              || v in Collect(charges, AmountFinding(e))
              || v in Collect(charges, AfaFinding(Select(tl, IsReauth)))
              || v in Collect(tl, TraceFinding)
  {
  }

  lemma NoticeOffence(e: FailureEvent, tl: seq<ExecutionResult>, v: Violation)
    ensures v in Collect(Select(tl, IsCharge), NoticeFinding(Select(tl, IsNotice))) <==>
            v.PredebitNoticeMissing? && Offence(e, tl, v)
  {
    InCollect(Select(tl, IsCharge), NoticeFinding(Select(tl, IsNotice)), v);
    SelectKeeps(tl, IsCharge);
    forall c ensures Noticed(Select(tl, IsNotice), c) <==> HasNotice(tl, c) {
      NoticedMeans(tl, c);
    }
  }

  lemma AfaOffence(e: FailureEvent, tl: seq<ExecutionResult>, v: Violation)
    ensures v in Collect(Select(tl, IsCharge), AfaFinding(Select(tl, IsReauth))) <==>
            v.AfaMissing? && Offence(e, tl, v)
  {
    InCollect(Select(tl, IsCharge), AfaFinding(Select(tl, IsReauth)), v);
    SelectKeeps(tl, IsCharge);
    forall c ensures Authorized(Select(tl, IsReauth), c) <==> (AmountOf(c) > AFA_CEILING ==> HasReauth(tl, c)) {
      AuthorizedMeans(tl, c);
    }
  }

  lemma QuietOffence(e: FailureEvent, tl: seq<ExecutionResult>, v: Violation)
    ensures v in Collect(Select(tl, IsContact), QuietFinding) <==>
            v.ContactInQuietHours? && Offence(e, tl, v)
  {
    InCollect(Select(tl, IsContact), QuietFinding, v);
    SelectKeeps(tl, IsContact);
  }

  lemma AmountOffence(e: FailureEvent, tl: seq<ExecutionResult>, v: Violation)
    ensures v in Collect(Select(tl, IsCharge), AmountFinding(e)) <==>
            v.AmountOverCap? && Offence(e, tl, v)
  {
    InCollect(Select(tl, IsCharge), AmountFinding(e), v);
    SelectKeeps(tl, IsCharge);
  }

  lemma TraceOffence(e: FailureEvent, tl: seq<ExecutionResult>, v: Violation)
    ensures v in Collect(tl, TraceFinding) <==>
            v.EmptyRuleTrace? && Offence(e, tl, v)
  {
    InCollect(tl, TraceFinding, v);
  }

  predicate AboutTimeline(v: Violation) {
    v.NpciRetryCapExceeded? || v.ContactFrequencyExceeded? || v.DeadMandateCharged?
  }

  lemma TimelineOffence(e: FailureEvent, tl: seq<ExecutionResult>, v: Violation)
    ensures var charges, contacts := |Select(tl, IsCharge)|, |Select(tl, IsContact)|;
            (|| v in When(charges > NPCI_MAX_RETRIES, NpciRetryCapExceeded(charges))
             || v in When(contacts > Budget(e), ContactFrequencyExceeded(contacts, Budget(e)))
             || v in When(Dead(e.mandateState) && Select(tl, IsCharge) != [], DeadMandateCharged(charges)))
            <==> AboutTimeline(v) && Offence(e, tl, v)
  {
  }

  /** The checker reports exactly the offences of the timeline, with exactly their figures. */
  lemma FindingsAreOffences(e: FailureEvent, tl: seq<ExecutionResult>, v: Violation)
    ensures v in Findings(e, tl) <==> Offence(e, tl, v)
  {
    InFindings(e, tl, v);
    NoticeOffence(e, tl, v);
    AfaOffence(e, tl, v);
    QuietOffence(e, tl, v);
    AmountOffence(e, tl, v);
    TraceOffence(e, tl, v);
    TimelineOffence(e, tl, v);
  }

  // ------------------------------------------------------------------ how many findings there are

  ghost function Count(tl: seq<ExecutionResult>, bad: ExecutionResult -> bool): nat {
    if tl == [] then 0 else Count(tl[..|tl| - 1], bad) + (if bad(tl[|tl| - 1]) then 1 else 0)
  }

  lemma {:induction false} CollectCounts(tl: seq<ExecutionResult>, keep: ExecutionResult -> bool,
                                         find: ExecutionResult -> seq<Violation>, bad: ExecutionResult -> bool)
    requires forall x :: if keep(x) then |find(x)| == (if bad(x) then 1 else 0) else !bad(x)
    ensures |Collect(Select(tl, keep), find)| == Count(tl, bad)
  {
    if tl != [] {
      var init, last := tl[..|tl| - 1], tl[|tl| - 1];
      CollectCounts(init, keep, find, bad);
      var kept := Select(init, keep);
      assert kept + [] == kept;
      assert (kept + [last])[..|kept|] == kept;
      assert Select(tl, keep) == if keep(last) then kept + [last] else kept;
    }
  }

  lemma {:induction false} SweepCounts(tl: seq<ExecutionResult>, find: ExecutionResult -> seq<Violation>,
                                       bad: ExecutionResult -> bool)
    requires forall x :: |find(x)| == (if bad(x) then 1 else 0)
    ensures |Collect(tl, find)| == Count(tl, bad)
  {
    if tl != [] {
      SweepCounts(tl[..|tl| - 1], find, bad);
    }
  }

  function One(bad: bool): nat { if bad then 1 else 0 }

  /** One finding an offence: the list is as long as the steps that offend a rule, rule by rule, and
      one more for each rule about the whole timeline that is broken. */
  lemma FindingsCount(e: FailureEvent, tl: seq<ExecutionResult>)
    ensures var charges, contacts := |Select(tl, IsCharge)|, |Select(tl, IsContact)|;
            |Findings(e, tl)| ==
              One(charges > 3) + One(Overcontacted(e, contacts)) + One(e.mandateState != Active && charges > 0)
              + Count(tl, x => Unnoticed(tl, x)) + Count(tl, Untimely) + Count(tl, x => Excessive(e, x))
              + Count(tl, x => Unauthorized(tl, x)) + Count(tl, Unexplained)
  {
    forall c ensures Noticed(Select(tl, IsNotice), c) <==> HasNotice(tl, c) {
      NoticedMeans(tl, c);
    }
    forall c ensures Authorized(Select(tl, IsReauth), c) <==> (AmountOf(c) > AFA_CEILING ==> HasReauth(tl, c)) {
      AuthorizedMeans(tl, c);
    }
    CollectCounts(tl, IsCharge, NoticeFinding(Select(tl, IsNotice)), x => Unnoticed(tl, x));
    CollectCounts(tl, IsContact, QuietFinding, Untimely);
    CollectCounts(tl, IsCharge, AmountFinding(e), x => Excessive(e, x));
    CollectCounts(tl, IsCharge, AfaFinding(Select(tl, IsReauth)), x => Unauthorized(tl, x));
    SweepCounts(tl, TraceFinding, Unexplained);
  }
}
