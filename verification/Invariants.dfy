/** Independent compliance verification: re-reads a finished timeline, knowing nothing of the
    loop state that produced it. */
module Invariants {
  import opened Schemas
  import opened Rules

  datatype Violation =
    | NpciRetryCapExceeded(charges: nat)
    | PredebitNoticeMissing(chargeAt: Instant)
    | ContactInQuietHours(at: ActionType, hour: nat)
    | ContactFrequencyExceeded(contacts: nat, budget: nat)
    | DeadMandateCharged(charges: nat)
    | AmountOverCap(amount: nat)
    | AfaMissing(amount: nat)
    | EmptyRuleTrace(at: ActionType)

  /** The steps a filter keeps, in order. */
  function Select(tl: seq<ExecutionResult>, keep: ExecutionResult -> bool): seq<ExecutionResult> {
    if tl == [] then []
    else Select(tl[..|tl| - 1], keep) + (if keep(tl[|tl| - 1]) then [tl[|tl| - 1]] else [])
  }

  lemma {:induction false} SelectKeeps(tl: seq<ExecutionResult>, keep: ExecutionResult -> bool)
    ensures forall x :: x in Select(tl, keep) <==> x in tl && keep(x)
  {
    if tl != [] {
      var n := |tl| - 1;
      SelectKeeps(tl[..n], keep);
      assert tl == tl[..n] + [tl[n]];
    }
  }

  function Budget(e: FailureEvent): nat {
    if e.contactsThisWeek >= MAX_CONTACTS then 0 else MAX_CONTACTS - e.contactsThisWeek
  }

  predicate NoticeFor(n: ExecutionResult, c: ExecutionResult) {
    n.action.scheduledAt <= c.action.scheduledAt - PREDEBIT_NOTICE
  }

  predicate ReauthFor(r: ExecutionResult, c: ExecutionResult) {
    r.action.scheduledAt <= c.action.scheduledAt
  }

  predicate Noticed(notices: seq<ExecutionResult>, c: ExecutionResult) {
    exists j :: 0 <= j < |notices| && NoticeFor(notices[j], c)
  }

  predicate Authorized(reauths: seq<ExecutionResult>, c: ExecutionResult) {
    AmountOf(c) > AFA_CEILING ==> exists j :: 0 <= j < |reauths| && ReauthFor(reauths[j], c)
  }

  // ------------------------------------------------------------------ the findings, rule by rule

  function When(bad: bool, x: Violation): seq<Violation> { if bad then [x] else [] }

  function NoticeFinding(notices: seq<ExecutionResult>): ExecutionResult -> seq<Violation> {
    c => When(!Noticed(notices, c), PredebitNoticeMissing(c.action.scheduledAt))
  }

  function QuietFinding(c: ExecutionResult): seq<Violation> {
    When(Quiet(c.action.scheduledAt), ContactInQuietHours(c.action.actionType, HourOf(c.action.scheduledAt)))
  }

  function AmountFinding(e: FailureEvent): ExecutionResult -> seq<Violation> {
    c => When(AmountOf(c) > e.maxAmount, AmountOverCap(AmountOf(c)))
  }

  function AfaFinding(reauths: seq<ExecutionResult>): ExecutionResult -> seq<Violation> {
    c => When(!Authorized(reauths, c), AfaMissing(AmountOf(c)))
  }

  function TraceFinding(r: ExecutionResult): seq<Violation> {
    When(r.executed && r.action.trace == [], EmptyRuleTrace(r.action.actionType))
  }

  function Collect(xs: seq<ExecutionResult>, find: ExecutionResult -> seq<Violation>): seq<Violation> {
    if xs == [] then [] else Collect(xs[..|xs| - 1], find) + find(xs[|xs| - 1])
  }

  function Findings(e: FailureEvent, tl: seq<ExecutionResult>): seq<Violation> {
    var charges, notices, contacts, reauths :=
      Select(tl, IsCharge), Select(tl, IsNotice), Select(tl, IsContact), Select(tl, IsReauth);
    When(|charges| > NPCI_MAX_RETRIES, NpciRetryCapExceeded(|charges|))
    + Collect(charges, NoticeFinding(notices))
    + Collect(contacts, QuietFinding)
    + When(|contacts| > Budget(e), ContactFrequencyExceeded(|contacts|, Budget(e)))
    + When(Dead(e.mandateState) && charges != [], DeadMandateCharged(|charges|))
    + Collect(charges, AmountFinding(e))
    + Collect(charges, AfaFinding(reauths))
    + Collect(tl, TraceFinding)
  }

  // ------------------------------------------------------------------ the checker as written

  /** One of the checker's loops: every step of a list is looked at in order. */
  method Sweep(v: seq<Violation>, xs: seq<ExecutionResult>, find: ExecutionResult -> seq<Violation>)
    returns (v': seq<Violation>)
    ensures v' == v + Collect(xs, find)
  {
    v' := v;
    for i := 0 to |xs|
      invariant v' == v + Collect(xs[..i], find)
    {
      assert xs[..i + 1][..i] == xs[..i];
      v' := v' + find(xs[i]);
    }
    assert xs[..|xs|] == xs;
  }

  /** The violations found, in the checker's order. */
  method CheckResolution(e: FailureEvent, tl: seq<ExecutionResult>) returns (v: seq<Violation>)
    ensures v == Findings(e, tl)
  {
    var charges := Select(tl, IsCharge);
    var notices := Select(tl, IsNotice);
    var contacts := Select(tl, IsContact);
    v := When(|charges| > NPCI_MAX_RETRIES, NpciRetryCapExceeded(|charges|));
    v := Sweep(v, charges, NoticeFinding(notices));
    v := Sweep(v, contacts, QuietFinding);
    v := v + When(|contacts| > Budget(e), ContactFrequencyExceeded(|contacts|, Budget(e)));
    v := v + When(Dead(e.mandateState) && charges != [], DeadMandateCharged(|charges|));
    v := Sweep(v, charges, AmountFinding(e));
    var reauths := Select(tl, IsReauth);
    v := Sweep(v, charges, AfaFinding(reauths));
    v := Sweep(v, tl, TraceFinding);
  }

  // ------------------------------------------------------------------ what compliance means

  /** Some executed notice is early enough for the charge. */
  ghost predicate HasNotice(tl: seq<ExecutionResult>, c: ExecutionResult) {
    exists n :: n in tl && IsNotice(n) && NoticeFor(n, c)
  }

  ghost predicate HasReauth(tl: seq<ExecutionResult>, c: ExecutionResult) {
    exists r :: r in tl && IsReauth(r) && ReauthFor(r, c)
  }

  /** All rules but AFA, on the timeline itself. */
  ghost predicate Compliant(e: FailureEvent, tl: seq<ExecutionResult>) {
    && |Select(tl, IsCharge)| <= NPCI_MAX_RETRIES
    && |Select(tl, IsContact)| <= Budget(e)
    && forall x | x in tl && x.executed ::
         && x.action.trace != []
         && (IsCharge(x) ==> HasNotice(tl, x) && !Dead(e.mandateState) && AmountOf(x) <= e.maxAmount)
         && (IsContact(x) ==> !Quiet(x.action.scheduledAt))
  }

  ghost predicate AfaCompliant(tl: seq<ExecutionResult>) {
    forall c | c in tl && IsCharge(c) && AmountOf(c) > AFA_CEILING :: HasReauth(tl, c)
  }

  ghost predicate OnlyAfa(v: seq<Violation>) { forall x | x in v :: x.AfaMissing? }

  lemma {:induction false} CollectEmpty(xs: seq<ExecutionResult>, find: ExecutionResult -> seq<Violation>)
    ensures Collect(xs, find) == [] <==> forall x | x in xs :: find(x) == []
  {
    if xs != [] {
      var n := |xs| - 1;
      CollectEmpty(xs[..n], find);
      assert xs == xs[..n] + [xs[n]];
    }
  }

  lemma {:induction false} CollectKind(xs: seq<ExecutionResult>, find: ExecutionResult -> seq<Violation>, afa: bool)
    requires forall x, y | x in xs && y in find(x) :: y.AfaMissing? == afa
    ensures forall y | y in Collect(xs, find) :: y.AfaMissing? == afa
  {
    if xs != [] {
      var n := |xs| - 1;
      assert xs[n] in xs;
      CollectKind(xs[..n], find, afa);
    }
  }

  lemma NoticedMeans(tl: seq<ExecutionResult>, c: ExecutionResult)
    ensures Noticed(Select(tl, IsNotice), c) <==> HasNotice(tl, c)
  {
    var ns := Select(tl, IsNotice);
    SelectKeeps(tl, IsNotice);
    if j :| 0 <= j < |ns| && NoticeFor(ns[j], c) {
      assert ns[j] in ns;
    }
    if n :| n in tl && IsNotice(n) && NoticeFor(n, c) {
      assert n in ns;
      var j :| 0 <= j < |ns| && ns[j] == n;
    }
  }

  lemma AuthorizedMeans(tl: seq<ExecutionResult>, c: ExecutionResult)
    ensures Authorized(Select(tl, IsReauth), c) <==> (AmountOf(c) > AFA_CEILING ==> HasReauth(tl, c))
  {
    var rs := Select(tl, IsReauth);
    SelectKeeps(tl, IsReauth);
    if j :| 0 <= j < |rs| && ReauthFor(rs[j], c) {
      assert rs[j] in rs;
    }
    if r :| r in tl && IsReauth(r) && ReauthFor(r, c) {
      assert r in rs;
      var j :| 0 <= j < |rs| && rs[j] == r;
    }
  }

  lemma ChargeListsMean(e: FailureEvent, tl: seq<ExecutionResult>)
    ensures Collect(Select(tl, IsCharge), NoticeFinding(Select(tl, IsNotice))) == [] <==>
            (forall x | x in tl && IsCharge(x) :: HasNotice(tl, x))
    ensures Collect(Select(tl, IsCharge), AmountFinding(e)) == [] <==>
            (forall x | x in tl && IsCharge(x) :: AmountOf(x) <= e.maxAmount)
  {
    SelectKeeps(tl, IsCharge);
    CollectEmpty(Select(tl, IsCharge), NoticeFinding(Select(tl, IsNotice)));
    CollectEmpty(Select(tl, IsCharge), AmountFinding(e));
    forall x | x in tl && IsCharge(x)
      ensures Noticed(Select(tl, IsNotice), x) <==> HasNotice(tl, x)
    {
      NoticedMeans(tl, x);
    }
  }

  lemma AfaListMeans(tl: seq<ExecutionResult>)
    ensures Collect(Select(tl, IsCharge), AfaFinding(Select(tl, IsReauth))) == [] <==> AfaCompliant(tl)
  {
    SelectKeeps(tl, IsCharge);
    CollectEmpty(Select(tl, IsCharge), AfaFinding(Select(tl, IsReauth)));
    forall x | x in tl && IsCharge(x)
      ensures Authorized(Select(tl, IsReauth), x) <==> (AmountOf(x) > AFA_CEILING ==> HasReauth(tl, x))
    {
      AuthorizedMeans(tl, x);
    }
  }

  lemma OtherListsMean(tl: seq<ExecutionResult>)
    ensures Collect(Select(tl, IsContact), QuietFinding) == [] <==>
            (forall x | x in tl && IsContact(x) :: !Quiet(x.action.scheduledAt))
    ensures Collect(tl, TraceFinding) == [] <==> (forall x | x in tl && x.executed :: x.action.trace != [])
  {
    SelectKeeps(tl, IsContact);
    CollectEmpty(Select(tl, IsContact), QuietFinding);
    CollectEmpty(tl, TraceFinding);
  }

  // Five findings lists of the other rules around the AFA list.
  lemma SumEmpty(a: seq<Violation>, b: seq<Violation>, c: seq<Violation>, d: seq<Violation>, f: seq<Violation>,
                 g: seq<Violation>, afa: seq<Violation>, h: seq<Violation>)
    ensures a + b + c + d + f + g + afa + h == [] <==>
            a == [] && b == [] && c == [] && d == [] && f == [] && g == [] && afa == [] && h == []
    ensures a == [] && b == [] && c == [] && d == [] && f == [] && g == [] && h == [] ==>
            a + b + c + d + f + g + afa + h == afa
  {
    assert |a + b + c + d + f + g + afa + h| == |a| + |b| + |c| + |d| + |f| + |g| + |afa| + |h|;
  }

  // The checker's rules but AFA, on the lists it builds.
  lemma CompliantOnLists(e: FailureEvent, tl: seq<ExecutionResult>)
    ensures Compliant(e, tl) <==>
            && |Select(tl, IsCharge)| <= NPCI_MAX_RETRIES
            && |Select(tl, IsContact)| <= Budget(e)
            && (Dead(e.mandateState) ==> Select(tl, IsCharge) == [])
            && (forall x | x in tl && IsCharge(x) :: HasNotice(tl, x))
            && (forall x | x in tl && IsCharge(x) :: AmountOf(x) <= e.maxAmount)
            && (forall x | x in tl && IsContact(x) :: !Quiet(x.action.scheduledAt))
            && (forall x | x in tl && x.executed :: x.action.trace != [])
  {
    SelectKeeps(tl, IsCharge);
    var charges := Select(tl, IsCharge);
    if charges != [] {
      assert charges[0] in tl && IsCharge(charges[0]);
    }
  }

  function OtherFindings(e: FailureEvent, tl: seq<ExecutionResult>): seq<Violation> {
    var charges, contacts := Select(tl, IsCharge), Select(tl, IsContact);
    When(|charges| > NPCI_MAX_RETRIES, NpciRetryCapExceeded(|charges|))
    + Collect(charges, NoticeFinding(Select(tl, IsNotice)))
    + Collect(contacts, QuietFinding)
    + When(|contacts| > Budget(e), ContactFrequencyExceeded(|contacts|, Budget(e)))
    + When(Dead(e.mandateState) && charges != [], DeadMandateCharged(|charges|))
    + Collect(charges, AmountFinding(e))
    + Collect(tl, TraceFinding)
  }

  function AfaFindings(tl: seq<ExecutionResult>): seq<Violation> {
    Collect(Select(tl, IsCharge), AfaFinding(Select(tl, IsReauth)))
  }

  // The findings are the other rules' findings with the AFA findings among them.
  lemma FindingsSplit(e: FailureEvent, tl: seq<ExecutionResult>)
    ensures Findings(e, tl) == [] <==> OtherFindings(e, tl) == [] && AfaFindings(tl) == []
    ensures OtherFindings(e, tl) == [] ==> Findings(e, tl) == AfaFindings(tl)
  {
    var charges, contacts := Select(tl, IsCharge), Select(tl, IsContact);
    SumEmpty(When(|charges| > NPCI_MAX_RETRIES, NpciRetryCapExceeded(|charges|)),
             Collect(charges, NoticeFinding(Select(tl, IsNotice))),
             Collect(contacts, QuietFinding),
             When(|contacts| > Budget(e), ContactFrequencyExceeded(|contacts|, Budget(e))),
             When(Dead(e.mandateState) && charges != [], DeadMandateCharged(|charges|)),
             Collect(charges, AmountFinding(e)),
             AfaFindings(tl),
             Collect(tl, TraceFinding));
  }

  lemma OtherFindingsMean(e: FailureEvent, tl: seq<ExecutionResult>)
    ensures OtherFindings(e, tl) == [] <==> Compliant(e, tl)
  {
    var charges, contacts := Select(tl, IsCharge), Select(tl, IsContact);
    SumEmpty(When(|charges| > NPCI_MAX_RETRIES, NpciRetryCapExceeded(|charges|)),
             Collect(charges, NoticeFinding(Select(tl, IsNotice))),
             Collect(contacts, QuietFinding),
             When(|contacts| > Budget(e), ContactFrequencyExceeded(|contacts|, Budget(e))),
             When(Dead(e.mandateState) && charges != [], DeadMandateCharged(|charges|)),
             Collect(charges, AmountFinding(e)),
             [],
             Collect(tl, TraceFinding));
    ChargeListsMean(e, tl);
    OtherListsMean(tl);
    CompliantOnLists(e, tl);
  }

  /** The checker's list is empty exactly on compliant timelines. */
  lemma FindingsMean(e: FailureEvent, tl: seq<ExecutionResult>)
    ensures Findings(e, tl) == [] <==> Compliant(e, tl) && AfaCompliant(tl)
    ensures Compliant(e, tl) ==> OnlyAfa(Findings(e, tl))
  {
    FindingsSplit(e, tl);
    OtherFindingsMean(e, tl);
    AfaListMeans(tl);
    CollectKind(Select(tl, IsCharge), AfaFinding(Select(tl, IsReauth)), true);
  }
}
