# Wick Hunter Hub: verified model

A Dafny model of the parts of the Hub that move money, take in evidence and replace the running
program, with proofs of what they promise. `dafny verify dfyconfig.toml` checks everything.

| modules | models | main results |
|---|---|---|
| `Basics`, `Ledger`, `Book`, `EarnStore` | the integer-cent ledger and its transactions, as functions on values and as a class that runs the same loops | every transaction of the class keeps every invariant, a refund adjustment exactly when what it read earlier is still good |
| `BookInvariants`, `Payouts`, `Conservation`, `Commission`, `Hosting` | commission rows, payout admission and settlement, operator entries, hosting fees | closed forms over flags and rows equal sums over the ledger; conservation; confluence |
| `Settlement`, `Admission`, `RowCredits` | the same transactions, by their effect | what a status, an admission, a purchase and a refund mean for flags, entries and every balance, whoever owns it |
| `Csv`, `CsvGrammar`, `Dollars`, `PartnerFile`, `MonthClose` | the partner's CSV file, exchange claims, and the month finalised from them | reading inverts every rendering and accepts nothing else; every finalised month credits exactly the qualified floor shares of its file, once |
| `Hub`, `HubSafety`, `HubCoverage`, `HubEffects` | one Hub process with its payment provider, lost requests and answers, crashes and operators, as runs | in every run at most one payment per job, no identity conflict, money conserved; every live payment covered, with the exact condition under which a refusal is harmless; each step settles, notes or credits exactly what the provider said |
| `Reconcile`, `Fairness`, `FairRuns` | the reconciliation pass, its memo, its batch limits, and runs of recovery passes | the memo is exact; no reserved job starves, whatever but new submissions happens between the passes |
| `Utf8`, `LineScanner`, `DiagnosticPruner`, `JsonStrings`, `LogClamp`, `RateLimiter`, `LimiterLog` | bounded evidence intake | each fast form refines a simple one; a clamp drops last leaves only; the limiter answers as the log of its calls says |
| `GzipQueue`, `SessionStore` | the compression queue with re-entrant callbacks; single-use tokens and sliding sessions | exact counters, first in first out; equality with a table-free reference |
| `Deployment` | manifest diff, deployment with failure at any operation, recovery recipe | the patched tree is the build tree; nothing is replaced before the recovery file is written; the recipe restores the original |

Code that changes state is modelled by classes and loops (`EarnStore.Store`, `Reconcile.Rail`,
`MonthClose.Desk`, `RateLimiter.FeedbackRateLimiter`, `GzipQueue.AsyncGzipQueue`,
`SessionStore.CustomerSessionStore`, `Deployment.Box`, and the loops of `LineScanner`,
`DiagnosticPruner`, `LogClamp`, `Csv`). Each is proved against a function on values, and the laws
are lemmas about those functions and about whole runs of them.

## Conventions

- Amounts are mathematical integers. The JavaScript arithmetic agrees while `commission * paid` is
  below 2^53. Both factors may reach 100,000,000 cents, so the largest product, 10^16, is slightly
  above that; the model does not describe the rounding there.
- A fresh UUID is a position in the list it names: an entry's identifier is its place in the ledger,
  a job's its place among the jobs. SHA-256 is treated as injective: a raw token stands for its
  hash, a file's contents for theirs.
- References are a datatype with one constructor per prefix the program writes. Operators' texts are
  assumed not to imitate one (`stripe:`, `hosting-fee:`, `rebate:`, `reverse:`).
- Test and live rails are independent copies of the same code; one rail is modelled.
- The provider (`Hub.ProcessRequest`) records the first outcome of an idempotency key, replays it for
  24 hours and may then forget it. A request is handled within one hour of being sent, or never:
  handling after the attempt has ended is allowed. Handling may accept or decline. The provider may
  also refuse a request without recording anything under its key (`Hub.Action.Refuse`); the safety of
  all runs does not depend on that. Covering every live payment does: `HubCoverage.RefusalExact` says
  exactly when taking such a refusal is harmless, and a run without a harmful one is called careful. A
  provider that records every refusal makes every run careful. A payment's status moves freely while
  it is processing or posted.
- What the worker read before an await travels with the step that uses it after the await (`known`,
  the worker's snapshot, `Hub.Read.asked`), and all five identity comparisons of the code are modelled.
- A crash forgets what the worker waited for. Operator transactions may happen between any two steps
  of the worker. Saves are atomic.
- Clocks do not go backwards where a lemma says so (`Ready`, `Monotone`, `now <= at`).
- Every lemma carries `{:induction false}`: no proof relies on automatic induction.
- Reading JSON, redaction, UTF-8 length of a log line, and random values are parameters.

## Where the code and its own text differ

- `src/customer-sessions.ts` says that every later attempt to use a burnt sign-in token sees `used`.
  Minting any token prunes used rows, so from then on the answer is `unknown`.
  `SessionStore.SecondAttempt` gives the exact condition, `SessionStore.UnknownAfterMint` an example.
- `run_package` packages files whose contents changed. A change of mode alone is not packaged, and a
  replaced file keeps the live mode. `Deployment.PatchModes` gives the exact condition under which the
  patched modes are the build's, `Deployment.ModesStay` an example.
- `run_package` asks for changed files or removals, but the manifest it then validates must have
  changed files, so a build that only removes files cannot be packaged (`Deployment.Package`, `Deployment.RemovalOnly`).
- `csvRows` counts rows at line ends, so 5,001 rows are accepted when the last one has no line end and
  refused when it has one (`Csv.ReadingInvertsRendering`, `Csv.LastRowUncounted`).

## Model

| member | source | states |
|---|---|---|
| HubSafety.RunSound | src/earn-stripe.ts:830-911 | in every run of worker steps, provider steps (unrecorded refusals too), operator transactions, time and crashes, every ledger and protocol invariant holds |
| HubSafety.StepSound | src/earn-stripe.ts:830-924 | each single action, in any state that satisfies the invariants, leaves one that does |
| HubSafety.AtMostOnePayment | src/earn-stripe.ts:895-905 | in every run a job has at most one payment at the provider, for exactly its amount and recipient |
| HubSafety.MoneyConserved | src/earn.ts:175-194 | in every run an owner's balances are credited money less paid money less reserved jobs, and paid money is what operators and settled jobs paid |
| HubCoverage.LivePaymentCovered | src/earn-stripe.ts:885-924 | in every careful run the ledger still holds, or has booked as paid, the full cents of every payment that has not failed, been canceled or been returned |
| HubCoverage.RunSafe | src/earn-stripe.ts:885-924 | in every careful run money was given back only for jobs that have no live payment and can get none |
| HubCoverage.StepSafe | src/earn-stripe.ts:885-924 | each action that does not take a harmful refusal keeps that |
| HubCoverage.RefusalExact | src/earn-stripe.ts:904 | taking an unrecorded definitive refusal leaves every live payment covered, then and in every careful continuation, if and only if the job has no live payment and no request still under way |
| HubCoverage.RecordingIsCareful | src/earn-stripe.ts:904 | with a provider whose refusals are all recorded under their keys every run is careful |
| HubSafety.InsideReplayWindow | src/earn-stripe.ts:899-901 | the 23-hour cut-off keeps every request inside its key's replay window, so no key is handled afresh twice |
| HubSafety.NoIdentityConflict | src/earn-stripe.ts:846-911 | in every run no job is marked as an identity conflict: the comparisons at lines 849, 894, 898, 902 and 910 never find a difference |
| HubSafety.CommissionClosedForm | src/earn-stripe.ts:229-240 | in every run a row's entries sum to its net commission, between zero and the basis, which is at most what was collected |
| HubSafety.AttemptSound | src/earn-stripe.ts:895-901 | marking, refusing, handing over or starting an attempt keeps every invariant |
| HubSafety.AttemptIdentity | src/earn-stripe.ts:896-898 | the job the worker read is the job in the file, so the check before an attempt passes |
| HubSafety.TakeAnswerSound | src/earn-stripe.ts:901-905 | storing an accepted payment, or settling a definitive refusal as failed, keeps every invariant |
| HubSafety.ConfirmSound | src/earn-stripe.ts:903-911 | reading back the status of a payment just made, and settling or noting it, keeps every invariant |
| HubSafety.CommitAllSound | src/earn-stripe.ts:846-856 | committing all collected statuses and errors in one transaction, identity comparison included, keeps every invariant and every payment identity |
| HubSafety.ProcessSound | src/earn-stripe-api.ts:31 | whatever the provider makes of a request that was sent once, every invariant holds |
| HubSafety.PurchaseBounds | src/earn-stripe.ts:703-735 | an admissible purchase has a positive basis, at most what was paid |
| HubEffects.AttemptExact | src/earn-stripe.ts:895-901 | a waiting job up to 23 hours old is sent as one request for its amount and recipient, an older one is handed over to review, any other is left alone |
| HubEffects.AcceptedExact | src/earn-stripe.ts:901-903 | a payment that was made is stored on its job and nothing else changes in the book |
| HubEffects.DeclinedExact | src/earn-stripe.ts:904-905 | a refusal is noted; exactly the codes 400, 402, 403, 404 and 422 fail the job and give its money back |
| HubEffects.ConfirmExact | src/earn-stripe.ts:906-911 | a confirmation settles the job with the very status of its payment at the provider |
| HubEffects.ConfirmTells | src/earn-stripe.ts:906-924 | so an unended job takes that status, becomes paid exactly when the payment has posted, with one payout entry for each allocation, and the ledger stays as it is while the payment is in flight |
| HubEffects.MismatchExact | src/earn-stripe.ts:906 | an answer for another amount or recipient settles nothing: it is noted, or collected as a failed read |
| HubEffects.GiveUpExact | src/earn-stripe.ts:894-904 | a failed wait is noted on the job; money and status stay |
| HubEffects.ReadExact | src/earn-stripe.ts:844 | a read collects the job as the worker knows it with the status its payment has |
| HubEffects.CommitExact | src/earn-stripe.ts:846-856 | a commit goes through the outcomes in order, each by noting the failure or settling the status that was read |
| HubEffects.ConflictExact | src/earn-stripe.ts:846-911 | every comparison that does find another identity hands that job over to review with its money where it was, and keeps a payment made for it |
| HubEffects.MissingExact | src/earn-stripe.ts:915-918 | in any book, settlement throws exactly when money that was paid comes back and one of its payout entries is missing; the throw is noted on the job and no money moves |
| HubEffects.AdmitExact | src/earn-stripe.ts:885-891 | an admission changes the book by that job alone, and the worker goes on with it as it was stored |
| HubEffects.PurchaseExact | src/earn-stripe.ts:727-735 | a purchase is admitted once, with what was collected, its basis and rate, and credits its referrer alone |
| HubEffects.RefundsExact | src/earn-stripe.ts:812-826 | the refund facts reach the row that was asked about, and the difference its owner |
| Payouts.SettleKeepsValid | src/earn-stripe.ts:912-924 | for any provider status, repeated or out of order, settlement succeeds and keeps every invariant: the missing-original throw cannot happen |
| Payouts.JobClosedForm | src/earn-stripe.ts:885-924 | an allocation's hold, release, payout and return entries sum to zero exactly when the money was given back and to minus its cents otherwise; one hold, at most one payout, at most one return |
| Payouts.AdmissionAmount | src/earn-stripe.ts:886-888 | the greedy debt offset pays exactly the positive part of the three conservative totals together, and no program gives more than it has |
| Payouts.AdmissionLeavesNothingOwed | src/earn-stripe.ts:885-891 | after the holds are appended the same computation yields nothing, and neither the combined balance nor that of an allocated program is negative |
| Payouts.AdmitKeepsValid | src/earn-stripe.ts:885-891 | admission keeps every invariant |
| Payouts.OffsetAmount | src/earn-stripe.ts:888 | what the running debt leaves: allocations worth the positive totals less the debt absorbed |
| Payouts.OffsetParts | src/earn-stripe.ts:888 | each allocation is a positive part of one program's total, and no program appears twice |
| Payouts.PostingsCents | src/earn-stripe.ts:920-921 | a posting adds, under each payout reference, exactly the entries its kind calls for |
| Payouts.PaidHasOriginals | src/earn-stripe.ts:915-918 | a paid job's payout entries are found, with its owner, programs and cents |
| Settlement.SettlementExact | src/earn-stripe.ts:912-924 | nothing for an ended job or an unknown status; else the job takes status and time, posted makes it paid with one payout entry per allocation, processing moves nothing, a failed, canceled or returned one gives every allocated cent back to its owner and program once, and no other balance moves |
| Admission.AdmissionExact | src/earn-stripe.ts:885-891 | no change when the cycle has its job or nothing is payable; else one fresh job for the counted cents, whose allocations leave the balances of its owner and are held, and nothing else moves |
| Admission.AmountIsCounted | src/earn-stripe.ts:886-888 | the amount is what the owner's counting entries are worth together, or nothing |
| Admission.OpenMonthCountsNothing | src/earn-stripe.ts:886 | a credit of the running month or a later one, and any entry of another owner, change no allocation |
| Admission.ClosedMonthsCountInFull | src/earn-stripe.ts:886 | when all of the owner's entries are of earlier months the amount is the combined balance, or nothing |
| Admission.DebitsCountAtOnce | src/earn-stripe.ts:886 | a debit of any month lowers the amount by its cents, down to nothing |
| Admission.AllocationsExact | src/earn-stripe.ts:888 | what the owner owes in one program is taken from the others in the order referral, exchange, marketplace |
| Conservation.Conserved | src/earn.ts:175-194 | in every valid state an owner's balances are credited money less paid money less unreleased jobs |
| Conservation.PaidCentsMeaning | src/earn.ts:175-194 | paid money is the unreversed operator payouts plus the jobs paid and not returned |
| Conservation.ManualReversalsCancel | src/earn.ts:312-316 | operator payouts with their reversals are worth the payouts nobody reversed |
| BookInvariants.RecordKeepsValid | src/earn.ts:296-311 | recording earnings, adjustments and payouts keeps every invariant |
| BookInvariants.ReverseKeepsValid | src/earn.ts:312-316 | reversing an entry keeps every invariant |
| BookInvariants.RecordExact | src/earn.ts:296-311 | in every valid state a reference is used once per kind, an exact repeat finds its entry, a payout never exceeds the balance, an entry is refused only for one of these reasons, and a new one moves its owner's balance alone, by what its kind says |
| BookInvariants.ReverseExact | src/earn.ts:312-316 | exactly an operator's own unreversed entry can be reversed; the reversal takes it back in every balance, in its month, and a second one is refused |
| BookInvariants.CorrectRateExact | src/earn-stripe.ts:229-240 | a correction is refused exactly for another owner's row, and leaves the floor commission at the new rate with entries that sum to what is left of it |
| BookInvariants.AssessFromKeepsValid | src/earn.ts:279-295 | assessing hosting fees keeps every invariant |
| BookInvariants.AdmitRowKeepsValid | src/earn-stripe.ts:727-735 | admitting an invoice or Checkout row keeps the closed form of every row |
| BookInvariants.AdjustRowKeepsValid | src/earn-stripe.ts:817-826 | a refund or dispute adjustment keeps the closed form of every row |
| BookInvariants.CorrectRateKeepsValid | src/earn-stripe.ts:229-240 | a rate correction keeps the closed form of every row |
| BookInvariants.ClawedBackBounds | src/earn-stripe.ts:817-826 | the claw-back lies between zero and the commission |
| Commission.ReplayAddsNothing | src/earn-stripe.ts:560-604 | a repeated delivery, or one replayed after its event was evicted, changes nothing while the refund and dispute facts are the same, whatever it claims about owner, amounts or rate |
| Commission.UnchangedFactsAddNothing | src/earn-stripe.ts:817-826 | asking again and finding unchanged facts adds no entry |
| Commission.RepeatedCorrectionAddsNothing | src/earn-stripe.ts:229-240 | repeating a rate correction adds no entry |
| BookInvariants.StaleAdjustment | src/earn-stripe.ts:817-826 | an adjustment computed from what the row held earlier keeps every invariant, and the row's closed form, if and only if those values claw back the same cents |
| Commission.ClawBackProportional | src/earn-stripe.ts:817-826 | the claw-back is the largest whole number of cents not above the refunded share |
| Commission.ClawBackMonotone | src/earn-stripe.ts:817-826 | it grows with the refund, from nothing to the whole commission |
| Commission.SameFactsSameCommission | src/earn-stripe.ts:705-735 | two runs that end with the same facts for a row have credited the same commission |
| RowCredits.AdmissionCredits | src/earn-stripe.ts:727-735 | a new row credits its owner with its commission in the referral program, by one entry of its month; no other balance moves |
| RowCredits.AdjustmentCredits | src/earn-stripe.ts:817-826 | an adjustment, whatever was read before the wait, moves the balance of the row's owner alone, by one entry of the row's month |
| RowCredits.CorrectionCredits | src/earn-stripe.ts:229-240 | so does a rate correction, by the change of the row's net commission |
| RowCredits.BasisIsLargest | src/earn-stripe.ts:703-735 | the basis is the largest amount within the software price and within what was collected less tax and hosting |
| RowCredits.RateByTier | src/earn-stripe.ts:703-735 | a member's own rate, else 20, 30 or 40 percent by the number of active subscribers |
| EarnStore.Store.SettleInState | src/earn-stripe.ts:912-924 | the in-place settlement keeps every invariant, never meets the missing-original throw, does to job, entries and balances exactly what the status says, and reports a change exactly when the job changed |
| EarnStore.Store.AdmitPayout | src/earn-stripe.ts:885-891 | the in-place admission keeps every invariant, does nothing for a cycle that has its job or an owner with nothing payable, and else adds one fresh job for the counted cents, which leave the balances of its programs |
| EarnStore.Store.OffsetDebt | src/earn-stripe.ts:888 | the loop with its running debt computes the greedy offset and its total |
| EarnStore.Store.ConservativeTotal | src/earn-stripe.ts:886 | the loop sums exactly the entries that count towards the cycle: those of earlier months, and debits of any month |
| EarnStore.Store.AdmitRow | src/earn-stripe.ts:727-735 | every invariant is kept; a new row carries the floor of its basis' share, its owner alone is credited with it in the row's month, and a known row changes nothing |
| EarnStore.Store.AdjustRow | src/earn-stripe.ts:817-826 | the row gets the new facts and its owner alone the difference; every invariant is kept if and only if the values read before the await claw back what the row's own would |
| EarnStore.Store.CorrectRate | src/earn-stripe.ts:229-240 | every invariant is kept; the row is refused exactly for another owner, and then holds the floor commission at the new rate, its owner alone being credited with the difference |
| EarnStore.Store.Record | src/earn.ts:296-311 | every invariant is kept; at most one entry is appended, as `BookInvariants.RecordExact` says, and a payout leaves a nonnegative balance |
| EarnStore.Store.Reverse | src/earn.ts:312-316 | every invariant is kept; at most one entry is appended, and it is then the only one that reverses that entry |
| EarnStore.Store.AssessHostingFees | src/earn.ts:279-295 | every invariant is kept; all missing debits, or a refusal that changes nothing |
| EarnStore.Store.FindOriginals | src/earn-stripe.ts:915-918 | the first payout entry of each allocation, or none if one is missing |
| Reconcile.DueExact | src/earn-stripe.ts:867-868 | before the computed time a full scan finds nothing to do, and from then on it finds something |
| Reconcile.Rail.Scan | src/earn-stripe.ts:834-870 | a pass is skipped only when a full scan of the file as it is now would find nothing; an unchanged file is scanned only when something is due; the provider is asked about the first hundred due jobs and 25 recoverable ones are submitted again, oldest check first; the outcomes carry the jobs as they were before the awaits and are committed in one save; the memo stays exact whatever was saved at the awaits |
| Reconcile.DueMeans | src/earn-stripe.ts:841 | due is a payment not known to have arrived, or posted and last checked six hours ago; ended and conflicting ones never are |
| Reconcile.TakesOldest | src/earn-stripe.ts:841-842 | the first hundred of the order are sorted and due, and a due job is left out only behind a hundred others |
| Reconcile.Rail.OtherWrite | src/earn.ts:66-71 | another save does not make the memo lie |
| FairRuns.RecoveredInTime | src/earn-stripe.ts:857-864 | from any reachable state, each of n recoverable jobs is attempted within the next ceil(n / 25) recovery passes, whatever the provider and the network do and whatever reads, commits, operators, crashes and time do between the passes |
| FairRuns.StepQuiet | src/earn-stripe.ts:846-856 | a step between two passes changes no recoverable job and makes no other job recoverable |
| Fairness.StepChecked | src/earn-stripe.ts:846-911 | every action of the Hub leaves every check time in the past |
| Fairness.AttemptedInTime | src/earn-stripe.ts:861-864 | over any sequence of passes, each of n recoverable jobs is in the batch of one of the first ceil(n / 25) |
| Fairness.WaitingIsBounded | src/earn-stripe.ts:861-864 | a job left out of p passes in a row had at least 25 p other recoverable jobs beside it at the start |
| Fairness.LeftOutAdvances | src/earn-stripe.ts:861-864 | each pass that leaves a job out takes 25 jobs ahead of it, and none gets ahead |
| Reconcile.OrderedSpec | src/earn-stripe.ts:841-842 | the order of a pass is oldest check first, stable, and lists exactly the chosen jobs |
| Fairness.RecoveryIsPass | src/earn-stripe.ts:863-864 | the recovery loop, made of steps of the Hub with any outcome of each attempt, is such a pass and keeps every invariant |
| Fairness.RecoverOneTouches | src/earn-stripe.ts:894-905 | an attempted job leaves the recoverable set or is checked at a new time, and no other job changes |
| Hosting.OneDebitPerMonth | src/earn.ts:279-295 | after any assessments in any order each month from the start to the latest assessed one carries exactly one debit, and no other month any |
| Hosting.AssessFromEffect | src/earn.ts:279-295 | what one assessment does to each month's debits |
| Hosting.RepeatAddsNothing | src/earn.ts:279-295 | assessing an assessed month again adds nothing |
| Hosting.FeesOwned | src/earn.ts:279-295 | every entry an assessment adds is one owner's referral debit of the month its reference names, between the start and the current month |
| Hosting.RefusedForReview | src/earn.ts:279-295 | an assessment is refused exactly when some member's fee is not between one cent and $1,000,000 or reaches back ten years or more |
| Hosting.ParseRender | src/earn.ts:285-288 | the month string of an index reads back as that index |
| Hosting.StringOrderIsMonthOrder | src/earn.ts:283 | comparing month strings compares months |
| MonthClose.HolderIsUnique | src/earn.ts:326 | the first member holding a verified account is the only one |
| MonthClose.AddUidKeepsClaims | src/earn.ts:228-249 | adding or changing a claim keeps one claim per exchange and one holder per verified account |
| MonthClose.SetVerifiedKeepsClaims | src/earn.ts:250-276 | verifying a claim keeps them too |
| MonthClose.AddUidExact | src/earn.ts:228-249 | a first claim is taken on a free exchange, a change when the member saw the claim as it is; a new or changed claim is unverified and has a revision of its own; all others stay |
| MonthClose.SetVerifiedExact | src/earn.ts:250-276 | a verification is set exactly when the claim is as the operator saw it and no other member's claim to the account is verified; nothing else changes |
| MonthClose.Totals | src/earn.ts:322-329 | the loop over the rows refuses exactly the files with a malformed, repeated, unmatched or excessive line, and else the running totals are the attributed cents |
| MonthClose.MonthRows | src/earn.ts:326-330 | an accepted file has one row per owner of a line, the floor of that owner's share of exactly the cents of its lines, qualified exactly from $15 on |
| MonthClose.MonthExact | src/earn.ts:317-330 | a month is made of a file exactly when the period is over, its lines are well formed, each is matched and listed once, and no total exceeds $1,000,000 |
| MonthClose.MonthAddsUp | src/earn.ts:322-330 | the commissions of a month's rows add up to the cents of its file |
| MonthClose.Desk.Preview | src/earn.ts:317-333 | from the text: mark, CSV, header, columns and amounts; the month is the one the members and the file determine, or a refusal |
| MonthClose.Desk.Import | src/earn.ts:334-342 | the preview is made again from the text and the members of now and must be the reviewed month; a period is finalised once, a repeat is a duplicate, anything else is refused, and only the first posts |
| MonthClose.StoredRows | src/earn.ts:330-342 | in every state of the desk every stored row is the floor share of a verified holder's lines |
| MonthClose.CreditedOnce | src/earn.ts:334-342 | in every state of the desk each holder of a verified account on a finalised file has exactly one rebate entry for that period, the floor of the share of its lines, if it reaches $15, and none otherwise, and has that in the Exchange program and nothing in the others |
| MonthClose.NobodyElse | src/earn.ts:334-342 | nobody without a row of the period has a rebate entry, or any cents, for it |
| PartnerFile.FileRoundTrip | src/earn.ts:317-324 | a file written with any quoting, any line ends and with or without a mark reads back as its lines |
| PartnerFile.FileExact | src/earn.ts:317-324 | a text is a file exactly when it reads as rows whose first is the header and whose others hold an exchange, an account and an amount; its lines are those |
| MonthClose.Desk.Claim | src/earn.ts:228-249 | the claim list after addUid, or a refusal |
| MonthClose.Desk.Verify | src/earn.ts:250-276 | the claim list after a verification, or a refusal |
| Csv.ReadRows | src/earn.ts:50-61 | the character loop computes the reader's automaton |
| Csv.ReadingInvertsRendering | src/earn.ts:50-61 | for every table of trimmed cells without an all-empty row, however quoted and whatever ends its lines, reading inverts rendering; too many rows are refused exactly above the limit |
| Csv.ReadingYieldsTable | src/earn.ts:50-61 | whatever the text, rows read are trimmed, not all-empty and at most 5,001 |
| Csv.ReadWriteRead | src/earn.ts:50-61 | reading, writing in canonical form and reading again gives the same table |
| CsvGrammar.AcceptedIsRendering | src/earn.ts:50-61 | every accepted text is made of cells that are bare or quoted as a whole with doubled quotes, between commas and line ends; what is read are its rows, trimmed, without the all-empty ones |
| Csv.LastRowUncounted | src/earn.ts:56-60 | 5,001 rows are read when the last one has no line end and refused when it has one |
| Csv.TooLargeExact | src/earn.ts:50-51 | a text is too large exactly from one million and one characters on |
| Csv.TrimTrims | src/earn.ts:56-60 | trimming yields a trimmed text and leaves one alone |
| Dollars.CentsRoundTrip | src/earn.ts:48 | every amount up to $1,000,000 reads back as itself, larger ones of that shape are refused |
| Dollars.AmountReads | src/earn.ts:48 | one to seven digits with up to two decimals read as so many cents, unless they exceed $1,000,000 |
| Dollars.OnlyAmountsRead | src/earn.ts:48 | nothing else is read |
| LineScanner.ScanFeedbackOffsets | src/feedback.ts:880-918 | for every block size and all positive short reads the rows are those of the plain line-by-line definition |
| LineScanner.ScanBlock | src/feedback.ts:880-918 | one block extends the rows and the unfinished line by exactly its bytes |
| LineScanner.RowsAreRecords | src/feedback.ts:803-818 | the rows are, in order, the records that splitting the whole text finds |
| LineScanner.ReadFeedbackAt | src/feedback.ts:920-929 | reading a row gives the record its bytes hold |
| LineScanner.ExportTracker | src/feedback.ts:935-955 | over bytes decoded as UTF-8: the export is a permutation of the records in the tracker, by descending time and, at equal times, ascending position |
| LineScanner.FeedbackExport | src/feedback.ts:935-955 | the same over any reader that keeps newlines |
| LineScanner.SortedNewest | src/feedback.ts:935-955 | the order of the export is newest first and stable |
| LineScanner.TrackerReadsBack | src/feedback.ts:803-818 | a tracker written line by line reads back as the reports on its lines, whatever garbage or blank lines stand between them |
| Utf8.DecodingKeepsNewlines | src/feedback.ts:803-818 | decoding bytes as UTF-8 with replacement characters commutes with splitting at newlines |
| Utf8.DecodeEncoded | src/feedback.ts:889 | decoding inverts the encoding of every sequence of code points |
| DiagnosticPruner.PruneExact | src/feedback.ts:338-364 | a pruning returns exactly the bytes the JSON text lost, and zero only when nothing could be pruned |
| DiagnosticPruner.PruneTakesLast | src/feedback.ts:338-364 | a pruning removes one value without prunable children, the last such one in document order outside the priority fields, and leaves everything else as it was |
| DiagnosticPruner.LastIsUnique | src/feedback.ts:338-364 | there is only one such value, so the pruned value is determined |
| JsonStrings.QuotedReadsBack | src/feedback.ts:333 | a string literal of the measured JSON ends at its own closing mark and stands for exactly the characters written |
| JsonStrings.EscapedSize | src/feedback.ts:333 | no character takes more bytes than it has to: two, six or its UTF-8 form |
| DiagnosticPruner.PruneKeepsPriority | src/feedback.ts:338-364 | a pruning leaves the priority fields as they are |
| DiagnosticPruner.PriorityIsFloor | src/feedback.ts:338-364 | no object is smaller than its priority fields |
| DiagnosticPruner.Clamp | src/feedback.ts:371-381 | the counter is the real size, the loop ends, the result fits and comes from the object by losing its last leaf again and again, each time because it did not fit yet, with the priority fields untouched; or it is empty when those do not fit |
| DiagnosticPruner.Finish | src/feedback.ts:391-426 | an untruncated snapshot is stored as it is; any other says it was truncated and keeps exactly the surviving priority fields, or is empty exactly when those do not fit |
| LogClamp.ClampLogs | src/feedback.ts:575-596 | the kept lines are the longest run of newest lines within both caps, and the flag says exactly whether anything is missing or changed |
| LogClamp.Longest | src/feedback.ts:588-594 | a run of newest lines fits exactly when it is no longer than the kept one |
| LogClamp.CleanedIsAllText | src/feedback.ts:575-587 | the cleaned lines are the texts of the report in order, each redacted once; anything else is dropped |
| RateLimiter.InspectOk | src/feedback.ts:189-231 | each row answers as its never-pruned history would, and no window of that history ever holds more than the maximum |
| RateLimiter.PurgeOk | src/feedback.ts:235-243 | purging a full map changes no answer |
| RateLimiter.SweepOk | src/feedback.ts:221-229 | the periodic sweep changes no answer |
| RateLimiter.ConsultedKept | src/feedback.ts:189-243 | every call keeps all four maps in step with their histories and within 4,096 keys |
| RateLimiter.RetryIsEnough | src/feedback.ts:203-208 | a refused caller who waits the stated seconds is accepted, if meanwhile the bucket recorded nothing and gave nobody else a row, however it was purged or swept |
| RateLimiter.RetryAmongCalls | src/feedback.ts:189-231 | the same over any sequence of the limiter's own calls that consumes from the other three buckets only |
| LimiterLog.AnswerByLog | src/feedback.ts:189-243 | from the log of the calls alone: a row is refused exactly when its accepted calls within the window number the maximum, with the seconds until the oldest of them leaves it |
| LimiterLog.OwnRow | src/feedback.ts:235-243 | while a bucket has seen no more than 4,095 different callers, each is answered from a row of its own |
| RateLimiter.OthersUntouched | src/feedback.ts:189-229 | a call touches its own map; only every 256th accepted one sweeps the others |
| RateLimiter.CheckedIsRecorded | src/feedback.ts:176-187 | what the check lets pass, the later record accepts, even if a sweep intervenes |
| RateLimiter.FeedbackRateLimiter.Inspect | src/feedback.ts:189-231 | the object's answer, maps and counter, and the history they stand for |
| RateLimiter.FeedbackRateLimiter.CheckAccepted | src/feedback.ts:176-182 | passes exactly when both rows pass, and else states the longer wait |
| RateLimiter.FeedbackRateLimiter.RecordAccepted | src/feedback.ts:184-187 | consumes in the licence row, then in the source row |
| RateLimiter.FeedbackRateLimiter.TakeIpAttempt | src/feedback.ts:168-170 | consumes one of 30 raw attempts per source and minute, under the source's name or "unknown" |
| RateLimiter.FeedbackRateLimiter.TakeAuthenticatedAttempt | src/feedback.ts:172-174 | consumes one of 30 attempts per licence and hour |
| RateLimiter.Purge | src/feedback.ts:239-241 | the loop drops exactly the rows without an active stamp |
| RateLimiter.Sweep | src/feedback.ts:221-229 | the loop keeps exactly the live stamps of the live rows |
| GzipQueue.CountersExact | src/async-gzip.ts:61-115 | in every reachable state, whatever the callbacks do, the counters count exactly the reservations, jobs and bytes, and stay in bounds |
| GzipQueue.NoIdleWorker | src/async-gzip.ts:92-115 | between calls a job waits only while every worker is busy |
| GzipQueue.PumpEndsSaturated | src/async-gzip.ts:92-96 | a pump, nested or not, ends only when nothing waits or every worker is busy |
| GzipQueue.FirstInFirstOut | src/async-gzip.ts:75-97 | jobs start in submission order, each once; each promise settles at most once and only after its start |
| GzipQueue.FirstCallbackWins | src/async-gzip.ts:97-108 | a settled promise, or a returned reservation, never changes again |
| GzipQueue.SettlesWith | src/async-gzip.ts:97-108 | a settlement carries the callback's error, or its bytes, or the missing result |
| GzipQueue.ThrowSettles | src/async-gzip.ts:109-113 | an exception settles the running job with its own text, and no settled one |
| GzipQueue.NothingLeaks | src/async-gzip.ts:61-115 | when every accepted job has settled, only unused reservations still count |
| GzipQueue.StepConsistent | src/async-gzip.ts:61-115 | every atomic step keeps the invariant |
| GzipQueue.AsyncGzipQueue.Create | src/async-gzip.ts:49-59 | construction refuses exactly the unusable limits |
| GzipQueue.AsyncGzipQueue.Reserve | src/async-gzip.ts:61-65 | a reservation is refused exactly when the job limit is reached |
| GzipQueue.AsyncGzipQueue.Compress | src/async-gzip.ts:66-79 | a job is queued exactly when its reservation is unused and its bytes fit |
| GzipQueue.AsyncGzipQueue.Release | src/async-gzip.ts:80-84 | an unused reservation is given back, once |
| GzipQueue.AsyncGzipQueue.Finish | src/async-gzip.ts:98-108 | the first callback settles the job and frees its place |
| GzipQueue.AsyncGzipQueue.Throw | src/async-gzip.ts:109-113 | an exception finishes the job unless a callback did |
| GzipQueue.AsyncGzipQueue.PumpOnce | src/async-gzip.ts:92-97 | one turn of the pump |
| GzipQueue.AsyncGzipQueue.PumpAsynchronous | src/async-gzip.ts:92-115 | with a gzip that only starts work, a pump starts as many of the oldest jobs as there are free workers |
| SessionStore.TokenExact | src/customer-sessions.ts:171-196 | a token is granted exactly when its latest mint is unspent and younger than 15 minutes, to the identity it was minted for |
| SessionStore.UnspentWasMinted | src/customer-sessions.ts:171-180 | an unspent token was minted, for that identity and at that time |
| SessionStore.SingleUse | src/customer-sessions.ts:185-196 | once granted, a token is never granted again, unless its random value is drawn again |
| SessionStore.SecondAttempt | src/customer-sessions.ts:182-196 | the reason of a second attempt is "used" exactly until anybody mints a token, and "unknown" from then on |
| SessionStore.ExpiredExact | src/customer-sessions.ts:171-196 | an unspent token 15 minutes old or older is "expired" exactly until a mint a day after its expiry prunes it, and "unknown" from then on |
| SessionStore.RowsGoBack | src/customer-sessions.ts:171-219 | every stored row is that of the call that made it: identity, times and address |
| SessionStore.UnknownAfterMint | src/customer-sessions.ts:171-196 | mint, use, mint another, use again: the answer is "unknown" |
| SessionStore.SessionExact | src/customer-sessions.ts:208-237 | a cookie is accepted exactly when the session is unrevoked and its recorded use younger than 30 days: pruning changes no success |
| SessionStore.StoredExpiry | src/customer-sessions.ts:226-237 | the stored expiry is at most an hour before exact sliding expiry and never after it |
| SessionStore.SlidingWindow | src/customer-sessions.ts:226-237 | uses in the first 30 days less an hour after the last one succeed, uses after 30 days fail |
| SessionStore.NeverRevives | src/customer-sessions.ts:226-251 | a refused or revoked cookie stays refused, unless its random value is drawn again |
| SessionStore.OthersKeepTheirSession | src/customer-sessions.ts:239-251 | signing one device out leaves the others signed in |
| SessionStore.CustomerSessionStore.MintSigninToken | src/customer-sessions.ts:171-180 | the table after minting is the one the history of calls determines |
| SessionStore.CustomerSessionStore.ConsumeSigninToken | src/customer-sessions.ts:185-196 | so are the table and the answer after an attempt |
| SessionStore.CustomerSessionStore.CreateSession | src/customer-sessions.ts:208-219 | so is the table after a sign-in |
| SessionStore.CustomerSessionStore.ValidateSession | src/customer-sessions.ts:226-237 | so are the table and the answer after a use |
| SessionStore.CustomerSessionStore.RevokeSession | src/customer-sessions.ts:242-251 | so is the table after a sign-out |
| Deployment.Package | scripts/deploy-hub-0491.py:1421-1430 | the loops compute the manifest of changed, new and removed files, or refuse when no file changed |
| Deployment.CompareLiveBaseline | scripts/deploy-hub-0491.py:1078-1108 | the loop collects the facts of every manifest path and finds a problem exactly when one disagrees |
| Deployment.PatchGivesBuild | scripts/deploy-hub-0491.py:1421-1430 | the patched tree is the build tree if and only if the live tree was the baseline |
| Deployment.PatchModes | scripts/deploy-hub-0491.py:1078-1097 | the patched modes are the build's if and only if every file that existed had its mode before |
| Deployment.PackagedModes | scripts/deploy-hub-0491.py:1421-1430 | a packaged file has mode 0755 if anybody may execute it, else 0644 |
| Deployment.PatchOwners | scripts/deploy-hub-0491.py:1078-1108 | a replaced file keeps its owner, a new one gets its directory's, any other file is untouched |
| Deployment.ModesStay | scripts/deploy-hub-0491.py:1421-1430 | a file whose mode alone changed is not packaged, and a replaced one keeps its old mode |
| Deployment.RemovalOnly | scripts/deploy-hub-0491.py:1421-1430 | a build that only removes a file has a removal and no file to package |
| Deployment.PatchThenUndo | scripts/deploy-hub-0491.py:1237-1255 | patching, whole or cut short, and then undoing gives the original tree: contents, modes and owners |
| Deployment.LineRestores | scripts/deploy-hub-0491.py:1243-1255 | each line of the recipe puts the original file back |
| Deployment.StillUndoable | scripts/deploy-hub-0491.py:1237-1255 | a recipe broken off anywhere can be run again from the start |
| Deployment.Box.BackupRuntimeFiles | scripts/deploy-hub-0491.py:1197-1220 | nothing live changes, and unless it fails every path to be replaced or retired has a verified backup |
| Deployment.Box.InstallFile | scripts/deploy-hub-0491.py:1315-1332 | wherever it fails, the target is the old or the new file, and at most a temporary file is left |
| Deployment.Box.RetireFile | scripts/deploy-hub-0491.py:1335-1354 | the file is in place or its contents are aside, never lost |
| Deployment.Box.WriteBuildRecord | scripts/deploy-hub-0491.py:1286-1312 | wherever it fails, the record is the old or the new one, and the old one was copied first |
| Deployment.Box.Deploy | scripts/deploy-hub-0491.py:1633-1676 | nothing is replaced before the stop, the data backup and the recovery file; after any failure the live tree is untouched or undoable; the record is replaced only once the packaged tree is live; success means tree, record and service are the new ones |
| Deployment.Box.RecordLine | scripts/deploy-hub-0491.py:1256-1261 | the record's line puts the old contents back as the service's own file with mode 0600, or removes a record there was not; without a copy it fails and the record is untouched |
| Deployment.Box.Rollback | scripts/deploy-hub-0491.py:1237-1265 | finished file lines have restored contents, mode and owner of every path but a stray temporary file; a finished record line has restored its contents, and the file exactly when it was the service's own with mode 0600 |

## Left out

- Offer, promotion, coupon and Checkout proofs, and the pagination walks: only the amounts they let through are modelled (`Book.Purchase`), and the referral count is a parameter.
- The bounded list of seen events: `Commission.ReplayAddsNothing` covers a delivery whose event was evicted.
- Reconcile.Rail.Scan: does not tie the submissions of the recovery loop to the provider; they are arbitrary saves there, and `FairRuns` models them with the steps of the Hub.
- A foreign process that rewrites a payout job between two steps of the worker: the identity comparisons are all modelled, and shown never to find a difference while the Hub alone owns the file.
- FairRuns.RecoveredInTime: does not model admissions and their first submissions between the passes counted; a job admitted there and lost to a crash before its first attempt has never been checked and goes ahead of the others.
- Error texts, notes and actors of entries, beyond what the transactions compare.
- Unrecognised provider statuses: ignored by settlement, and not part of the fairness results.
- Settings, payout day, account status and the admission switch that is looked at again after each wait: admission is modelled from the transaction on.
- The sandbox ledger's member copies, member profiles, and the admin and member views other than their sums.
- The digest of a month preview and the locale order of its rows: the rows are in member order, and the reviewed month stands for its digest. The format checks of a claim (known exchange, main account, characters of a UID) and the audit list.
- DiagnosticPruner.Clamp: works on JSON values, so it does not model that the program edits the parsed object in place.
- Redaction, depth and node budgets of diagnostics, image headers, disk quotas, and attachments of feedback.
- A clock that is not finite, and clocks that go backwards, in the limiter and the session store.
- GzipQueue: the contents that gzip computes are whatever the callback passes; promises are settled values, without the microtasks that deliver them.
- Identities of customers, e-mail folding, cookies, and rate limits of sign-in: identities are opaque texts.
- Directories, symbolic links and their checks in deployment; a missing directory is a failed file operation.
- Deployment.Box.Rollback: does not restore data/, which the recipe leaves to the operator, and leaves a stray temporary file of an interrupted install.
- What a stop, a data backup, the recovery file or a start consists of: each is one operation that may fail, in the order of the code. Receipts, markers and the proofs of service state are not modelled, nor is the temporary file of the build record.
- HTTP routes, transport, e-mail, timers, licences, feature flags, hosting and billing services.
