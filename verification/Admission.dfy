/** What a payout admission takes, from whom, and what it never takes. */
module Admission {
  import opened Basics
  import opened Ledger
  import opened Book
  import opened BookInvariants
  import opened Payouts
  import opened Settlement

  // ---------------------------------------------------------------- the month rule

  /** An entry that counts towards a cycle: of an earlier month, or a debit of any month. */
  predicate Counts(e: Entry, cycle: nat) { e.period < cycle || e.cents < 0 }

  function CountedIn(owner: string, s: Source, cycle: nat): Measure {
    (e: Entry) => if e.owner == owner && e.source == s && Counts(e, cycle) then e.cents else 0
  }

  function CountedFor(owner: string, cycle: nat): Measure {
    (e: Entry) => if e.owner == owner && Counts(e, cycle) then e.cents else 0
  }

  /** What counts in one program. */
  function Worth(es: seq<Entry>, owner: string, s: Source, cycle: nat): int { Sum(es, CountedIn(owner, s, cycle)) }

  lemma {:induction false} TotalsAreWorth(es: seq<Entry>, owner: string, cycle: nat)
    ensures Totals(es, owner, cycle) ==
              [Share(Referral, Worth(es, owner, Referral, cycle)), Share(Exchange, Worth(es, owner, Exchange, cycle)),
               Share(Marketplace, Worth(es, owner, Marketplace, cycle))]
  {
    SumSame(es, Conservative(owner, Referral, cycle), CountedIn(owner, Referral, cycle));
    SumSame(es, Conservative(owner, Exchange, cycle), CountedIn(owner, Exchange, cycle));
    SumSame(es, Conservative(owner, Marketplace, cycle), CountedIn(owner, Marketplace, cycle));
  }

  lemma {:induction false} WorthAddsUp(es: seq<Entry>, owner: string, cycle: nat)
    ensures Worth(es, owner, Referral, cycle) + Worth(es, owner, Exchange, cycle) + Worth(es, owner, Marketplace, cycle)
         == Sum(es, CountedFor(owner, cycle))
  {
    if es != [] {
      WorthAddsUp(es[..|es| - 1], owner, cycle);
    }
  }

  /** The amount is what the owner's counting entries are worth together, if that is
      positive. */
  lemma {:induction false} AmountIsCounted(es: seq<Entry>, owner: string, cycle: nat)
    ensures ShareTotal(Allocations(es, owner, cycle)) == Max(0, Sum(es, CountedFor(owner, cycle)))
  {
    AdmissionAmount(es, owner, cycle);
    TotalsAreWorth(es, owner, cycle);
    WorthAddsUp(es, owner, cycle);
  }

  /** The running month is not paid out, and nobody pays for anybody else: such entries
      change no allocation. */
  lemma {:induction false} OpenMonthCountsNothing(es: seq<Entry>, e: Entry, owner: string, cycle: nat)
    requires e.owner != owner || (e.cents >= 0 && e.period >= cycle)
    ensures Allocations(es + [e], owner, cycle) == Allocations(es, owner, cycle)
  {
    TotalsAreWorth(es, owner, cycle);
    TotalsAreWorth(es + [e], owner, cycle);
    SumPush(es, e, CountedIn(owner, Referral, cycle));
    SumPush(es, e, CountedIn(owner, Exchange, cycle));
    SumPush(es, e, CountedIn(owner, Marketplace, cycle));
  }

  /** When all of an owner's money is from earlier months, the whole balance is payable. */
  lemma {:induction false} ClosedMonthsCountInFull(es: seq<Entry>, owner: string, cycle: nat)
    requires forall e | e in es && e.owner == owner :: e.period < cycle
    ensures ShareTotal(Allocations(es, owner, cycle)) == Max(0, CombinedBalance(es, owner))
  {
    AmountIsCounted(es, owner, cycle);
    SumSame(es, CountedFor(owner, cycle), OwnedBy(owner));
    CombinedIsOwned(es, owner);
  }

  /** A debit of any month lowers the amount by its cents, down to nothing. */
  lemma {:induction false} DebitsCountAtOnce(es: seq<Entry>, e: Entry, owner: string, cycle: nat)
    requires e.owner == owner && e.cents <= 0
    ensures ShareTotal(Allocations(es + [e], owner, cycle)) == Max(0, ShareTotal(Allocations(es, owner, cycle)) + e.cents)
  {
    AmountIsCounted(es, owner, cycle);
    AmountIsCounted(es + [e], owner, cycle);
    SumPush(es, e, CountedFor(owner, cycle));
  }

  // ---------------------------------------------------------------- which program pays

  /** The cents allocated to one program. */
  function AllocatedTo(allocations: seq<Share>, s: Source): int {
    if allocations == [] then 0
    else AllocatedTo(allocations[..|allocations| - 1], s) + CentsIn(allocations[|allocations| - 1], s)
  }

  lemma {:induction false} AllocatedToPush(front: seq<Share>, a: Share, s: Source)
    ensures AllocatedTo(front + [a], s) == AllocatedTo(front, s) + CentsIn(a, s)
  {
    assert (front + [a])[..|front|] == front;
  }

  lemma {:induction false} NothingTo(ts: seq<Share>, debt: nat, s: Source)
    requires forall k | 0 <= k < |ts| :: ts[k].source != s
    ensures AllocatedTo(Offset(ts, debt).0, s) == 0
  {
    if ts != [] {
      var n := |ts| - 1;
      NothingTo(ts[..n], debt, s);
      LastTo(ts, debt, s);
    }
  }

  lemma {:induction false} PushTo(front: seq<Share>, t: Share, left: nat, s: Source)
    ensures AllocatedTo(if t.cents > left then front + [Share(t.source, t.cents - left)] else front, s)
         == AllocatedTo(front, s) + (if t.source == s then Max(0, t.cents - left) else 0)
  {
    if t.cents > left {
      AllocatedToPush(front, Share(t.source, t.cents - left), s);
    }
  }

  lemma {:induction false} OffsetLast(ts: seq<Share>, debt: nat)
    requires ts != []
    ensures var n := |ts| - 1;
            var (front, left) := Offset(ts[..n], debt);
            Offset(ts, debt).0 == if ts[n].cents > left then front + [Share(ts[n].source, ts[n].cents - left)] else front
  {
  }

  /** What the last program of a list adds. */
  lemma {:induction false} LastTo(ts: seq<Share>, debt: nat, s: Source)
    requires ts != []
    ensures var n := |ts| - 1;
            var left := Offset(ts[..n], debt).1;
            AllocatedTo(Offset(ts, debt).0, s)
            == AllocatedTo(Offset(ts[..n], debt).0, s) + (if ts[n].source == s then Max(0, ts[n].cents - left) else 0)
  {
    OffsetLast(ts, debt);
    var n := |ts| - 1;
    var (front, left) := Offset(ts[..n], debt);
    PushTo(front, ts[n], left, s);
  }

  /** Debts are taken from the programs in order: a program pays what the positive totals
      before it leave of the debt, and gets the rest of its own. */
  lemma {:induction false} DebtInOrder(ts: seq<Share>, debt: nat, k: nat)
    requires k < |ts| && DistinctSources(ts)
    ensures AllocatedTo(Offset(ts, debt).0, ts[k].source) == Max(0, ts[k].cents - Max(0, debt - Positive(ts[..k])))
  {
    var n := |ts| - 1;
    LastTo(ts, debt, ts[k].source);
    if k == n {
      OffsetAmount(ts[..n], debt);
      NothingTo(ts[..n], debt, ts[k].source);
    } else {
      DebtInOrder(ts[..n], debt, k);
      assert ts[..n][..k] == ts[..k];
    }
  }

  /** The debts of an owner: the programs whose counting entries are worth less than nothing. */
  function Owing(es: seq<Entry>, owner: string, cycle: nat): nat {
    Max(0, -Worth(es, owner, Referral, cycle)) + Max(0, -Worth(es, owner, Exchange, cycle))
    + Max(0, -Worth(es, owner, Marketplace, cycle))
  }

  /** The three allocations, in closed form. */
  lemma {:induction false} AllocationsExact(es: seq<Entry>, owner: string, cycle: nat)
    ensures var allocations := Allocations(es, owner, cycle);
            var r, x, m := Worth(es, owner, Referral, cycle), Worth(es, owner, Exchange, cycle), Worth(es, owner, Marketplace, cycle);
            var debt := Owing(es, owner, cycle);
            && AllocatedTo(allocations, Referral) == Max(0, r - debt)
            && AllocatedTo(allocations, Exchange) == Max(0, x - Max(0, debt - Max(0, r)))
            && AllocatedTo(allocations, Marketplace) == Max(0, m - Max(0, debt - Max(0, r) - Max(0, x)))
            && DistinctSources(allocations) && forall a | a in allocations :: a.cents > 0
  {
    AdmissionAmount(es, owner, cycle);
    TotalsAreWorth(es, owner, cycle);
    ThreeInOrder(Totals(es, owner, cycle));
  }

  lemma {:induction false} ThreeInOrder(ts: seq<Share>)
    requires |ts| == 3 && DistinctSources(ts)
    ensures var allocations := Offset(ts, Debt(ts)).0;
            var debt := Max(0, -ts[0].cents) + Max(0, -ts[1].cents) + Max(0, -ts[2].cents);
            && AllocatedTo(allocations, ts[0].source) == Max(0, ts[0].cents - debt)
            && AllocatedTo(allocations, ts[1].source) == Max(0, ts[1].cents - Max(0, debt - Max(0, ts[0].cents)))
            && AllocatedTo(allocations, ts[2].source)
               == Max(0, ts[2].cents - Max(0, debt - Max(0, ts[0].cents) - Max(0, ts[1].cents)))
  {
    ThreeDebts(ts);
    ThreePositives(ts);
    DebtInOrder(ts, Debt(ts), 0);
    DebtInOrder(ts, Debt(ts), 1);
    DebtInOrder(ts, Debt(ts), 2);
  }

  lemma {:induction false} ThreePositives(ts: seq<Share>)
    requires |ts| == 3
    ensures Positive(ts[..0]) == 0 && Positive(ts[..1]) == Max(0, ts[0].cents)
    ensures Positive(ts[..2]) == Max(0, ts[0].cents) + Max(0, ts[1].cents)
  {
    assert ts[..2][..1] == ts[..1] && ts[..1][..0] == ts[..0] == [];
  }

  lemma {:induction false} ThreeDebts(ts: seq<Share>)
    requires |ts| == 3
    ensures Debt(ts) == Max(0, -ts[0].cents) + Max(0, -ts[1].cents) + Max(0, -ts[2].cents)
  {
    var two := ts[..2];
    var one := two[..1];
    assert one[..0] == [] && Debt(one) == Max(0, -ts[0].cents);
    assert Debt(two) == Debt(one) + Max(0, -ts[1].cents);
  }

  // ---------------------------------------------------------------- the law of admission

  /** The job that an admission makes. */
  predicate Fresh(job: Job, owner: string, cycle: nat, recipient: string, account: string, now: nat) {
    && job.owner == owner && job.cycle == cycle && job.recipient == recipient && job.account == account
    && job.created == now && job.status == Submitting && job.stripeId.None? && job.error.None?
    && !job.released && !job.paid && !job.returned && !job.conflict && job.checked == 0
  }

  /** Nothing happens when the cycle has its job or nothing is payable. Otherwise there is one
      fresh job for the whole amount, its cents leave the balances of its programs and are
      held, and nothing else moves. */
  ghost predicate AdmittedAs(b: Book, after: Book, owner: string, cycle: nat, recipient: string, account: string, now: nat) {
    var amount := Max(0, Sum(b.entries, CountedFor(owner, cycle)));
    if amount < 1 || exists k :: 0 <= k < |b.jobs| && b.jobs[k].owner == owner && b.jobs[k].cycle == cycle then after == b
    else
      && after.members == b.members && after.rows == b.rows
      && |after.jobs| == |b.jobs| + 1 && after.jobs[..|b.jobs|] == b.jobs
      && var job := after.jobs[|b.jobs|];
         && Fresh(job, owner, cycle, recipient, account, now)
         && job.amount == amount == ShareTotal(job.allocations) && job.allocations == Allocations(b.entries, owner, cycle)
         && (forall a | a in job.allocations :: Cents(after.entries, HoldOf(|b.jobs|, a.source)) == [-a.cents])
         && BalancesMove(b.entries, after.entries, job, Taken)
         && AppendedFor(b.entries, after.entries, job)
  }

  lemma {:induction false} AdmissionExact(b: Book, owner: string, cycle: nat, recipient: string, account: string,
                                          now: nat)
    requires Valid(b)
    ensures AdmittedAs(b, AdmitPayout(b, owner, cycle, recipient, account, now), owner, cycle, recipient, account, now)
  {
    AmountIsCounted(b.entries, owner, cycle);
    if !HasJob(b.jobs, owner, cycle) && ShareTotal(Allocations(b.entries, owner, cycle)) >= 1 {
      AdmissionMoves(b, owner, cycle, recipient, account, now);
    }
  }

  lemma {:induction false} AdmissionMoves(b: Book, owner: string, cycle: nat, recipient: string, account: string,
                                          now: nat)
    requires Valid(b) && !HasJob(b.jobs, owner, cycle) && ShareTotal(Allocations(b.entries, owner, cycle)) >= 1
    ensures var after := AdmitPayout(b, owner, cycle, recipient, account, now);
            |after.jobs| == |b.jobs| + 1
            && var job := after.jobs[|b.jobs|];
               && (forall a | a in job.allocations :: Cents(after.entries, HoldOf(|b.jobs|, a.source)) == [-a.cents])
               && BalancesMove(b.entries, after.entries, job, Taken) && AppendedFor(b.entries, after.entries, job)
  {
    AdmissionFlows(b.entries, |b.jobs|, owner, cycle, recipient, account, now);
    AdmitKeepsValid(b, owner, cycle, recipient, account, now);
    HeldAll(AdmitPayout(b, owner, cycle, recipient, account, now), |b.jobs|);
  }

  lemma {:induction false} AdmissionFlows(es: seq<Entry>, n: nat, owner: string, cycle: nat, recipient: string,
                                          account: string, now: nat)
    ensures var job := NewJob(owner, cycle, recipient, account, now, Allocations(es, owner, cycle));
            var after := es + Postings(|es|, n, job, Reserve, job.allocations);
            BalancesMove(es, after, job, Taken) && AppendedFor(es, after, job)
  {
    var job := NewJob(owner, cycle, recipient, account, now, Allocations(es, owner, cycle));
    AdmissionAmount(es, owner, cycle);
    PostingFlows(es, es + Postings(|es|, n, job, Reserve, job.allocations), n, job, Reserve);
  }

  lemma {:induction false} HeldAll(b: Book, j: nat)
    requires Valid(b) && j < |b.jobs|
    ensures forall a | a in b.jobs[j].allocations :: Cents(b.entries, HoldOf(j, a.source)) == [-a.cents]
  {
    forall a | a in b.jobs[j].allocations
      ensures Cents(b.entries, HoldOf(j, a.source)) == [-a.cents]
    {
      var i :| 0 <= i < |b.jobs[j].allocations| && b.jobs[j].allocations[i] == a;
      HeldOnce(b, j, i);
    }
  }

  lemma {:induction false} HeldOnce(b: Book, j: nat, i: nat)
    requires Valid(b) && j < |b.jobs| && i < |b.jobs[j].allocations|
    ensures var a := b.jobs[j].allocations[i];
            Cents(b.entries, HoldOf(j, a.source)) == [-a.cents]
  {
    JobClosedForm(b, j, i);
  }
}
