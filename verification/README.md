# MandateMend: a verified model

MandateMend recovers failed recurring payments. One bounded loop per mandate asks two advisors, lets
a deterministic policy engine turn their advice into one action, executes it once, and goes on until
the payment is recovered or a human takes over. Every step is written to a hash-chained ledger, and
an independent checker re-reads every finished timeline.

The project models that behaviour and proves what its documentation promises about it, over every
event, diagnosis, sequence of advice and sequence of outcomes, for runs of any length. Where a
promise is false of the code, the exact condition under which it holds is proved instead.

`dafny verify dfyconfig.toml` checks everything.

## How it is organised

| module | what it holds |
|---|---|
| Schemas, Rules, Simulation | the shared types and constants, the loop state, the rule predicates, delay buckets |
| Engine, EngineTheorems, EngineTrace | the decision as staged substitutions and as the source's straight-line method; the decision table and the rule trace it amounts to |
| Agent, Overrides | the recovery loop as a method over a mutable loop state, and as a step function on sessions; whose advice decides a round |
| Invariants, Verdicts | the compliance checker as loops over lists, the rules on the timeline that it decides, and every finding it makes |
| LoopTheorems, Compliance, Outcomes, StallBreak, Course, LongestRun | what every round keeps; whole-run compliance; accounting and what it misses; when a run stops, its clock and what it has tried; termination |
| IdempotencyKey, Executor, ExecutorProtocol, Freshness | the key as text, the executor, its concurrent protocol, and the loop over it |
| Ledger, LedgerTheorems | the ledger's operations; what the chain proves and what operation sequences keep |
| Advisors, Ranking, Schedule, ArmWalk | the cached trained advisors; the greedy walk against one sort; both advisors over whole runs |
| Products, RetryTiming, Wilson | survival products, the value of a retry schedule, the score interval |
| Batch | the batch over its own buffered ledger: totals, breakdown, violations reported |

The theorems about the loop take the engine as a parameter, `decide`, and require only that it keeps
the decision table (`EngineTheorems.KeepsTable`); `DecisionKeepsTable` shows that the engine does.
Time is integer microseconds from a local midnight, money is integer paise, probabilities are reals.
A round's advice, its outcome and an unexpected engine error are inputs (`Agent.Round`), so a claim
about all sequences of rounds covers every advisor and every gateway.

## What was found

* **AFA (I13).** `docs/INVARIANTS.md` promises that no charge above the ceiling goes out without an
  earlier re-authorization, and a comment in the economics fallback promises that it re-checks every
  charging precondition. It does not check AFA (`src/mandatemend/policy/engine.py:268-294`). One
  decision breaks the rule exactly under `EngineTheorems.AfaGap`; one run breaks it exactly when a
  round takes that branch and its charge is executed (`Compliance.AfaPerRun`). Before the run, an
  event can be charged that way if and only if it is live and confidently diagnosed, not as a
  retry-first cause, above the ceiling, within its cap, and has two contacts left
  (`Compliance.AfaExposed`, `AfaExactly`). All other rules of the checker hold on every run.
* **Stall-break.** The loop leaves before the effects of the last step are applied
  (`src/mandatemend/agent.py:229-241`). A run can then make a contact that `contacts_made` does not
  count, if and only if the event is one on which the loop can make any contact at all
  (`StallBreak.Contactable`); and a step can win without the mandate being reported recovered, if and
  only if the event is contactable or open to a grace extension (`StallBreak.Graceable`). Both
  conditions can be read off the event and the diagnosis before the run. `Outcomes.Accounts` says
  what every single run counts; `contacts_made` includes the contacts made before the session.
* **Round budget.** Without the budget of 10, a run in which every money action executes ends
  within 14 rounds, and 14 is reached: the budget does cut runs short.
* **Retry-cap substitution** is dead code under the loop: the hard-decline counter equals the retry
  counter at every round head, so the stopping rule always acts first.
* **Ledger.** `begin_buffer` with rows pending, or with a cold cache over a non-empty table, breaks
  the next flush. `reset_cache` with rows pending keeps the chain valid and loses those rows. The
  model docstring (`src/mandatemend/db/models.py:8-10`) says that any deletion is detected: deleting
  the last rows is not. Of a chain's own rows, in whatever order and number, exactly the prefixes
  verify.
* **Delay alignment.** The loop moves an early ask to 25 hours before the first notice, to keep the
  engine from bouncing it (`src/mandatemend/agent.py:194-199`). Before the first notice the engine's
  decision, trace included, does not depend on the retry advice at all, so this changes no decision.
* **Duplicates.** A second call with a key agrees with the first on the outcome and on the money of a
  win. A raising gateway is reported as a failure the first time and as unknown afterwards, because
  its row stays as it was reserved.
* **Schedules.** The model's top-3 schedule is not only what the loop walks: no other schedule of at
  most three distinct buckets has a higher expected recovery.

## Model

| member | source | states |
|---|---|---|
| Rules.LoopState.constructor | src/mandatemend/agent.py:173-180 | a fresh loop state starts with no retry, decline, notice or re-authorization, and with the event's contacts and grace flag |
| Rules.QuietMeans | src/mandatemend/policy/rules.py:110-119 | the quiet-hours rule accepts exactly the instants from 08:00 until before 21:00 of some day |
| Rules.ThresholdsAreExact | src/mandatemend/policy/rules.py:67-179 | every other rule is the exact threshold of the policy, boundary included |
| Rules.ClampIsLeast | src/mandatemend/policy/rules.py:182-190 | the clamp is the least instant at or after its input that the quiet-hours rule accepts; everything skipped is quiet |
| Rules.ClampIsAClosure | src/mandatemend/policy/rules.py:110-119 | the clamp fixes exactly the accepted instants, is idempotent and monotone |
| Simulation.SnapDelay | src/mandatemend/simulation.py:38-44 | the snapped delay is the greatest bucket at or before the delay, or 0 |
| Simulation.Snap | src/mandatemend/simulation.py:38-44 | the loop over the buckets computes that bucket |
| Simulation.SnapFixesBuckets | src/mandatemend/simulation.py:38-44 | a delay that is a bucket is left alone |
| Simulation.PartialIsNearest | src/mandatemend/policy/engine.py:156-164 | the partial amount is the one integer nearest to six tenths, never a tie, never more than the full amount |
| Engine.PlanCharge | src/mandatemend/policy/engine.py:142-202 | the charging branch as written amounts to the cap stage followed by the AFA stage |
| Engine.Decide | src/mandatemend/policy/engine.py:57-426 | the branch-by-branch engine, fail-closed wrapper included, computes the staged decision whose table is proved below |
| EngineTheorems.DecisionTable | src/mandatemend/policy/engine.py:85-480 | for every action type, exactly the inputs on which it is emitted, and every field it carries |
| EngineTrace.TraceIsExact | src/mandatemend/policy/engine.py:93-426 | the rule trace of every decision, entry by entry: which rules it names, in which order, with which verdicts |
| EngineTrace.NoEntryLies | src/mandatemend/policy/engine.py:93-426 | every entry's flag is the verdict of the rule it names |
| EngineTheorems.TableIsSound | src/mandatemend/policy/engine.py:141-413 | every emitted charge is live, within cap and budget and 24 h after a notice; every contact is within budget and outside quiet hours; money actions lie at least an hour ahead; every action has a trace |
| EngineTheorems.AfaHoldsExactlyOutsideTheFallback | src/mandatemend/policy/engine.py:186-202 | a charge above the ceiling without re-authorization is emitted if and only if the guard of the economics fallback holds, and then carries no bucket |
| Overrides.RetryFirstIsPlayed | src/mandatemend/agent.py:61-88 | with retries left on a retry-first cause any other arm is played as a retry at the retry advisor's odds |
| Overrides.ArmIsPlayed | src/mandatemend/agent.py:76-81 | everywhere else the engine sees the uplift advisor's own advice |
| Overrides.FirstNoticeIsPriced | src/mandatemend/policy/engine.py:208-302 | a chargeable retry with no notice yet becomes a notice exactly when it is worth its price at the odds that count, and an idle round otherwise |
| Overrides.OutreachIsPriced | src/mandatemend/policy/engine.py:238-302 | a proposed outreach is sent exactly when it is worth its price at the uplift advisor's odds |
| Overrides.FailsClosed | src/mandatemend/policy/engine.py:65-82 | a round in which the engine fails executes nothing and ends the run with a human, the loop state untouched |
| Overrides.AlignmentChangesNothing | src/mandatemend/agent.py:194-199 | aligning an early ask changes no decision |
| Agent.ApplyEffects | src/mandatemend/agent.py:254-283 | the if-chain has exactly the effect of the step on the loop state, and reports a win exactly on an executed success |
| Agent.PlayRound | src/mandatemend/agent.py:192-294 | one pass through the loop body is one step of the session, exit included |
| Agent.FinishRound | src/mandatemend/agent.py:254-294 | effects first; the clock moves and the budgets are looked at only if the step has not won |
| Agent.Rounds | src/mandatemend/agent.py:186-294 | the loop with its five exits goes through exactly the sessions of the step function, for the real budget of 10 |
| Agent.Recover | src/mandatemend/agent.py:168-319 | the resolution returned is the one read off that session |
| Invariants.Sweep | src/mandatemend/invariants.py:53-64 | one checker loop appends, in order, exactly the findings of its list |
| Invariants.CheckResolution | src/mandatemend/invariants.py:24-118 | the checker returns the findings of all its rules, in its order |
| Invariants.FindingsMean | src/mandatemend/invariants.py:45-118 | the list is empty if and only if the timeline itself satisfies every rule; if all rules but AFA hold, only AFA findings remain |
| Verdicts.FindingsAreOffences | src/mandatemend/invariants.py:45-118 | the checker reports exactly the offences of the timeline, with exactly their figures |
| Verdicts.FindingsCount | src/mandatemend/invariants.py:45-118 | one finding for each step that offends a rule and one for each broken rule about the whole timeline |
| LoopTheorems.RoundKeeps | src/mandatemend/agent.py:191-294 | one round keeps the history of permitted steps and, while the loop runs, the summary of the timeline in the loop state |
| LoopTheorems.EveryRun | src/mandatemend/agent.py:191-294 | after every number of rounds of every run the timeline is such a history and the loop state summarises it |
| Compliance.Replay | src/mandatemend/agent.py:191-220 | step i of any timeline is the outcome of round i played from the steps before it |
| Compliance.TimeOrder | src/mandatemend/agent.py:261-285 | executed actions are scheduled at least 90 minutes apart in timeline order, and each charge's notice lies earlier in the timeline |
| Compliance.EveryRunComplies | src/mandatemend/invariants.py:45-94 | every run passes the retry-cap, notice, quiet-hours, contact, dead-mandate, amount and trace rules; nothing but AFA can be found |
| Compliance.TakenGapBreaks | src/mandatemend/policy/engine.py:263-294 | a round that takes the unguarded branch and executes leaves an AFA violation no later step repairs |
| Compliance.UntakenGapsComply | src/mandatemend/policy/engine.py:186-202 | a run that never takes it has, for every charge above the ceiling, an earlier re-authorization |
| Compliance.AfaPerRun | src/mandatemend/invariants.py:96-111 | a run satisfies the AFA rule if and only if no round takes the unguarded branch with an executed charge |
| Compliance.GapMeansExposed | src/mandatemend/policy/engine.py:268-275 | the branch can only be taken on an exposed event |
| Compliance.ExposedRunTakesGap | src/mandatemend/policy/engine.py:268-294 | every exposed event has a run that takes it: one notice, then uneconomic outreach |
| Compliance.AfaExactly | src/mandatemend/invariants.py:24-118 | the checker finds nothing on any run of an event if and only if the event is not exposed |
| Outcomes.EveryRunAccounted | src/mandatemend/agent.py:222-312 | recovered xor escalated; at most the last step wins; retries, contacts, amount and terminal action are the timeline's, with the stall-break spelled out |
| Course.StopsExactly | src/mandatemend/agent.py:223-294 | a run goes on exactly as long as its last step gives no reason to stop: an escalation, a stall, a win, or both budgets spent |
| Course.TenRoundsAtMost | src/mandatemend/agent.py:51 | the agent's own budget is ten rounds, and a run it cuts has used them all |
| Course.ClockIsExact | src/mandatemend/agent.py:173-174 | the clock is the least instant half an hour a step after the start, five minutes past the failure, and after every schedule since |
| Course.TriedIsExecuted | src/mandatemend/agent.py:246-252 | the tried arms are those the executed steps used up, the tried buckets those the executed charges named |
| StallBreak.ContactsCountedExactly | src/mandatemend/agent.py:229-263 | every run of an event counts all its contacts if and only if the event is not contactable |
| StallBreak.SuccessCountedExactly | src/mandatemend/agent.py:229-283 | every run of an event reports a recovery exactly when a step won, if and only if the event is neither contactable nor open to grace |
| StallBreak.NoContacts | src/mandatemend/policy/engine.py:238-413 | no run of an event that is not contactable executes a contact |
| StallBreak.SwitchStalls | src/mandatemend/agent.py:229-241 | every contactable event has a run that stalls on an executed, winning contact |
| StallBreak.GraceStalls | src/mandatemend/agent.py:229-241 | every event open to grace has a run that stalls on a winning step |
| Outcomes.RoundBurnsFuel | src/mandatemend/agent.py:224-294 | a continuing round whose money action executes strictly lowers a measure of the budgets left |
| Outcomes.TerminatesOnItsOwn | src/mandatemend/agent.py:191-294 | with every money action executed and the round budget removed the loop leaves within 14 rounds |
| Outcomes.RetryCapBranchUnreachable | src/mandatemend/policy/engine.py:143-154 | at every head declines equal retries, so the retry-cap branch is never reached and a confident round after the last retry escalates |
| LongestRun.FourteenRoundsHappen | src/mandatemend/agent.py:224-294 | a concrete run with every money action executed takes all 14 rounds |
| IdempotencyKey.LeapRule | src/mandatemend/policy/engine.py:48-51 | the calendar behind the stamp has the civil leap years |
| IdempotencyKey.DateOf | src/mandatemend/policy/engine.py:48-51 | every day has a date of the civil calendar, month length and leap day included, that leads back to it |
| IdempotencyKey.StampDeterminesHour | src/mandatemend/policy/engine.py:48-51 | two instants share a stamp if and only if they share the hour |
| IdempotencyKey.KeyDetermines | src/mandatemend/policy/engine.py:48-51 | two keys are equal if and only if mandate id, round, action type and hour are, whatever characters the id contains |
| Executor.Database.constructor | src/mandatemend/db/models.py:37-50 | a new table is empty |
| Executor.Database.Execute | src/mandatemend/executor/executor.py:35-148 | the result, the row, the audit entry and the gateway calls of one execution, case by case: a first call, a raising gateway, a duplicate, a non-money action |
| Executor.ExecutionMeans | src/mandatemend/executor/executor.py:35-148 | result, row columns and audit entry of a first call, a later call and a non-money action, reply by reply |
| Executor.SecondCallIsDeduplicated | src/mandatemend/executor/executor.py:127-148 | executing again calls no gateway and changes nothing; both calls agree on the outcome and the money of a win, and differ after a raising gateway exactly as stated |
| ExecutorProtocol.MoveKeepsInv | src/mandatemend/executor/executor.py:53-125 | every atomic move of any call, crashes included, keeps the protocol invariant |
| ExecutorProtocol.ExactlyOnce | src/mandatemend/executor/executor.py:53-148 | in every interleaving: one reserve and one gateway call per key, by the committed owner; at most one call per key reports executed; it reports the gateway's answer to that very call, success and money; every other result is vouched for by the table |
| ExecutorProtocol.UninterruptedCall | src/mandatemend/executor/executor.py:35-148 | the sequential executor is the protocol run without interruption |
| Freshness.RoundKeyIsNew | src/mandatemend/policy/engine.py:48-51 | over a table without this mandate's keys, a round's money action has a key that is not in the table |
| Freshness.BackedRunsExist | src/mandatemend/agent.py:219 | whatever the advisors say and the gateway answers, there is a run whose outcomes are the executor's own, over any table |
| Freshness.FreshRunsExecute | src/mandatemend/executor/executor.py:53-70 | so no money action of such a run is deduplicated |
| Freshness.FreshRunsTerminate | src/mandatemend/agent.py:191-294 | so the agent over its own executor stops by itself within 14 rounds |
| Freshness.BatchesExecute | src/mandatemend/executor/executor.py:53-70 | mandates with different ids recovered in turn over one table that has seen none of them never have a money action deduplicated |
| Ledger.AuditLedger.constructor | src/mandatemend/audit/ledger.py:26-45 | a new ledger is empty, unbuffered and cold |
| Ledger.AuditLedger.FlushBuffer | src/mandatemend/audit/ledger.py:54-64 | pending rows reach the table together or not at all |
| Ledger.AuditLedger.Append | src/mandatemend/audit/ledger.py:75-104 | the new row, the cache, the buffer and the entry hash after an append that may fail |
| Ledger.AuditLedger.VerifyChain | src/mandatemend/audit/ledger.py:107-119 | the verdict names the first broken row and the reason; it is good if and only if the table is a chain |
| LedgerTheorems.TipDeterminesHistory | src/mandatemend/audit/ledger.py:71-72 | two chains that verify and end in the same hash record the same payloads in the same order |
| LedgerTheorems.ChainIsDistinct | src/mandatemend/audit/ledger.py:75-104 | all entry hashes of a chain differ, even when payloads repeat |
| LedgerTheorems.EditIsLocated | src/mandatemend/audit/ledger.py:112-118 | a payload altered in place is reported at that very row |
| LedgerTheorems.DeletionShows | src/mandatemend/audit/ledger.py:107-119 | deleting a row breaks the chain if and only if it is not the last one |
| LedgerTheorems.OnlyPrefixesVerify | src/mandatemend/audit/ledger.py:107-119 | of a chain's own rows, in any order and number, a sequence verifies if and only if it is a prefix of the chain |
| LedgerTheorems.AppendKeepsGood | src/mandatemend/audit/ledger.py:75-104 | an append extends the one chain of table and buffer by a row with the entry's own columns, or leaves it as it was |
| LedgerTheorems.FlushKeepsGood | src/mandatemend/audit/ledger.py:54-64 | a flush, failed or not, leaves the chain as it was |
| LedgerTheorems.ResetKeepsGood | src/mandatemend/audit/ledger.py:34-38 | a reset keeps the chain valid and loses exactly the pending rows |
| LedgerTheorems.BeginKeepsGoodExactly | src/mandatemend/audit/ledger.py:48-51 | beginning a buffer is safe if and only if nothing is pending and the cache is warm or the table empty |
| LedgerTheorems.UnsafeBeginBreaks | src/mandatemend/audit/ledger.py:48-64 | at any other point the next entry's flush is rejected or what it writes does not verify |
| LedgerTheorems.UnsafePointsHappen | src/mandatemend/audit/ledger.py:34-51 | such points are reached by ordinary use: after an entry and a reset, and in the middle of a buffer |
| LedgerTheorems.LedgerAlwaysVerifies | src/mandatemend/audit/ledger.py:34-119 | after any sequence of operations with safe begins the table verifies, before and after a flush |
| LedgerTheorems.BufferingChangesNothing | src/mandatemend/audit/ledger.py:41-64 | buffered and unbuffered runs of the same entries give the same rows and the same tip |
| Advisors.ModelCache.constructor | src/mandatemend/models/advisors.py:127-132 | empty caches are faithful |
| Advisors.ModelCache.Warm | src/mandatemend/models/advisors.py:134-138 | the last row of a mandate id wins, other ids keep what they had, and the caches stay faithful |
| Advisors.ModelCache.Lookup | src/mandatemend/models/advisors.py:147-153 | while a mandate id stands for one event and diagnosis a lookup returns what the model would; otherwise, exactly which stale value it returns |
| Advisors.SurvivalAdvise | src/mandatemend/models/advisors.py:140-156 | the advice is the point of the model's curve that no eligible point beats and no earlier one equals; untried buckets are eligible, or all once none is left |
| Advisors.UpliftAdvise | src/mandatemend/models/advisors.py:176-197 | the advice is the first untried entry of the model's ranking, or the first of all once every arm was tried |
| ArmWalk.ArmsWalkDown | src/mandatemend/models/advisors.py:189-190 | over a run the uplift advisor only moves down its ranking, moves on once a proposal was used up, and never proposes a used-up arm while one is left |
| ArmWalk.ArmAdvisedRunsExist | src/mandatemend/agent.py:200-202 | such runs exist for every ranking, whatever else the rounds bring |
| Ranking.RankingSorts | src/mandatemend/eval.py:84 | the ranking permutes the curve into the one order by falling probability that keeps ties in bucket order |
| Ranking.GreedyPicksNextRank | src/mandatemend/models/advisors.py:154-155 | with the first k ranks tried, the advisor's choice is rank k |
| Schedule.AdvisedRunsExist | src/mandatemend/agent.py:193 | whatever else the rounds bring, there is a run whose retry advice is the trained advisor's throughout |
| Schedule.WalkRefinesSorting | src/mandatemend/eval.py:84-85 | the buckets such a run charges, in order, are a prefix of the model schedule and pairwise distinct |
| Schedule.WalkIsOptimal | src/mandatemend/models/retry_timing.py:236-249 | no equally many distinct buckets are expected to recover more than the ones the run has charged |
| RetryTiming.SurvivalCurve | src/mandatemend/models/retry_timing.py:219-228 | each entry is the product of the misses up to its bucket |
| RetryTiming.RecoveryCurve | src/mandatemend/models/retry_timing.py:230-234 | each entry is one minus that product |
| RetryTiming.HazardMap | src/mandatemend/models/retry_timing.py:245 | the map answers with the last point of a bucket, and with 0 off the curve |
| RetryTiming.ExpectedRecovery | src/mandatemend/models/retry_timing.py:236-249 | one minus the product of the misses of the schedule, buckets off the curve never recovering |
| RetryTiming.SurvivalFalls | src/mandatemend/models/retry_timing.py:219-228 | survival lies in [0, 1] and never rises |
| RetryTiming.FullScheduleIsLastPoint | src/mandatemend/models/retry_timing.py:230-249 | retrying every bucket is worth the last point of the recovery curve |
| RetryTiming.MoreRetriesRecoverMore | src/mandatemend/models/retry_timing.py:242-244 | a schedule contained in another as a multiset is worth no more |
| RetryTiming.OrderDoesNotMatter | src/mandatemend/models/retry_timing.py:242-244 | permuting a schedule does not change its worth |
| RetryTiming.RecoveryBounds | src/mandatemend/models/retry_timing.py:236-249 | a schedule is worth at least its best retry and at most the sum of its retries |
| RetryTiming.TopRanksAreBest | src/mandatemend/eval.py:84-85 | no k distinct buckets recover more than the k best-ranked ones |
| RetryTiming.ModelScheduleIsBest | src/mandatemend/eval.py:84-89 | the model schedule is three distinct buckets and optimal among all schedules of at most three |
| Wilson.RadicandIsNotNegative | src/mandatemend/batch/run_batch.py:78 | what the square root is taken of is never negative |
| Wilson.UnclampedMeans | src/mandatemend/batch/run_batch.py:74-79 | q lies in the unclamped interval if and only if n(k/n − q)² ≤ z²q(1 − q) |
| Wilson.ScoreMeans | src/mandatemend/batch/run_batch.py:68-79 | the interval is exactly that set, contains k/n, lies in [0, 1], and the clamps never change it; without a sample it is (0, 0) |
| Batch.RecoverAll | src/mandatemend/batch/run_batch.py:117-147 | the loop's totals and per-cause rows are the sums over all mandates, and the buffer holds the chain of all their entries |
| Batch.CloseLedger | src/mandatemend/batch/run_batch.py:149-152 | the flush is accepted exactly when the rows do not clash and the database does not fail; then the verdict is whether they form a chain |
| Batch.Run | src/mandatemend/batch/run_batch.py:92-153 | a report is made exactly when that flush is accepted, and every figure of it is then read off the cases and their timelines |
| Batch.ReportIsMade | src/mandatemend/batch/run_batch.py:149-150 | without a hash collision the rows never clash |
| Batch.BatchReads | src/mandatemend/batch/run_batch.py:118-147 | every total and every per-cause figure is a sum read off the cases and their finished timelines: money at risk, money recovered, charges, wasted contacts, findings |
| Batch.NothingIsLost | src/mandatemend/batch/run_batch.py:126-147 | the per-cause rows add up to the totals, and the harm is the wasted contacts at the price of one |
| Batch.NobodyIsForgotten | src/mandatemend/batch/run_batch.py:119-133 | recovered and escalated mandates add up to the batch |
| Batch.ZeroViolationsExactly | src/mandatemend/batch/run_batch.py:117-152 | the violations reported, the ledger's own included, are zero whatever rounds and entries come if and only if the batch contains no exposed mandate |

## Left out

- Texts of `reason`, `detail` and rule messages, policy version, model source and uplift figures: the trace keeps rule name and outcome.
- Diagnosis, sanitising, prompting and JSON: the diagnosis is any cause and confidence.
- Training and inference of both models: hazard curves and rankings are arbitrary inputs.
- Heuristic advisors: the loop's theorems cover any advice, but which bucket or arm they pick is not stated.
- Gateways, sessions, threads, clocks and configuration loading: an outcome is an input, the database is a map with a UNIQUE key and atomic commits.
- Datetime overflow and time zones: instants are unbounded; a year below 1000 is written without padding.
- Which audit entries the agent and the executor append: the loop model keeps the timeline only, and a batch appends arbitrary entries. An audit append that raises.
- Ledger timestamps and ids: the chain does not cover them. Canonical JSON: a payload is a string.
- SHA-256: any function with 64-character results; a theorem that needs it collision-free asks so of the strings actually hashed only (`NoClash`), since no such function is injective.
- Appends from several threads: the lock makes them a sequence.
- Float rounding, and rounding of reported figures: reals, before `round`. The square root in `Wilson.Score` is a parameter with its defining equation.
- Wilson.ScoreMeans: says nothing for k outside 0..n, where the source may take the root of a negative number.
- Baselines, the bootstrap, the scorecard's ratios, calibration error, console and drills.
- Replaying a whole recovery over a used database: not promised, since deduplicated steps change later rounds.
- Outcomes.TerminatesOnItsOwn: needs every money action executed; a deduplicated step makes no progress and only the round budget ends such runs.
