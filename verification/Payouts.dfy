/** Payout transactions: the greedy debt offset, admission and settlement. */
module Payouts {
  import opened Basics
  import opened Ledger
  import opened Book
  import opened BookInvariants

  // ---------------------------------------------------------------- postings

  /** Whether a posting writes entries with this kind of payout reference. */
  predicate Writes(p: Posting, r: Reference) {
    || (r.HoldOf? && p.Reserve?)
    || (r.ReleaseOf? && (p.Settle? || p.Restore?))
    || (r.PayoutOf? && p.Settle?)
    || (r.ReturnOf? && p.Undo?)
  }

  predicate Debits(r: Reference) { r.HoldOf? || r.PayoutOf? }

  /** What one posting adds under reference r. */
  function PostedCents(p: Posting, j: nat, allocations: seq<Share>, r: Reference): seq<int> {
    if Writes(p, r) && r.job == j then Marks(allocations, r.source, Debits(r)) else []
  }

  function PostedOne(p: Posting, j: nat, a: Share, r: Reference): seq<int> {
    if Writes(p, r) && r.job == j then Mark(a, r.source, Debits(r)) else []
  }

  lemma {:induction false} LinesCents(at: nat, j: nat, job: Job, p: Posting, a: Share, r: Reference)
    ensures Cents(Lines(at, j, job, p, a), r) == PostedOne(p, j, a, r)
  {
    var ls := Lines(at, j, job, p, a);
    if p.Settle? {
      CentsTwo(ls[0], ls[1], r);
      assert [ls[0], ls[1]] == ls;
    } else {
      CentsOne(ls[0], r);
      assert [ls[0]] == ls;
    }
  }

  lemma {:induction false} CentsOne(e: Entry, r: Reference)
    ensures Cents([e], r) == if e.reference == r then [e.cents] else []
  {
    CentsPush([], e, r);
    assert [] + [e] == [e];
  }

  lemma {:induction false} CentsTwo(d: Entry, e: Entry, r: Reference)
    requires d.reference != e.reference
    ensures Cents([d, e], r) == if d.reference == r then [d.cents] else if e.reference == r then [e.cents] else []
  {
    CentsOne(d, r);
    CentsPush([d], e, r);
    assert [d] + [e] == [d, e];
  }

  /** A list collected share by share. */
  function Collect(allocations: seq<Share>, one: Share -> seq<int>): seq<int> {
    if allocations == [] then []
    else Join(Collect(allocations[..|allocations| - 1], one), one(allocations[|allocations| - 1]))
  }

  /** What distributes over appending is collected over the postings line by line. */
  lemma {:induction false} PostingsCollect(at: nat, j: nat, job: Job, p: Posting, allocations: seq<Share>,
                                           g: seq<Entry> -> seq<int>, one: Share -> seq<int>)
    requires g([]) == [] && forall a, b :: g(a + b) == Join(g(a), g(b))
    requires forall i: nat, a :: g(Lines(i, j, job, p, a)) == one(a)
    ensures g(Postings(at, j, job, p, allocations)) == Collect(allocations, one)
  {
    if allocations != [] {
      PostingsCollect(at, j, job, p, allocations[..|allocations| - 1], g, one);
    }
  }

  lemma {:induction false} CollectMarks(allocations: seq<Share>, s: Source, debit: bool, one: Share -> seq<int>)
    requires forall a :: one(a) == Mark(a, s, debit)
    ensures Collect(allocations, one) == Marks(allocations, s, debit)
  {
    if allocations != [] {
      CollectMarks(allocations[..|allocations| - 1], s, debit, one);
    }
  }

  lemma {:induction false} CollectNothing(allocations: seq<Share>, one: Share -> seq<int>)
    requires forall a :: one(a) == []
    ensures Collect(allocations, one) == []
  {
    if allocations != [] {
      CollectNothing(allocations[..|allocations| - 1], one);
    }
  }

  lemma {:induction false} PostingsCents(at: nat, j: nat, job: Job, p: Posting, allocations: seq<Share>, r: Reference)
    ensures Cents(Postings(at, j, job, p, allocations), r) == PostedCents(p, j, allocations, r)
  {
    var g := (es: seq<Entry>) => Cents(es, r);
    var one := (a: Share) => PostedOne(p, j, a, r);
    forall a, b
      ensures g(a + b) == Join(g(a), g(b))
    {
      CentsAppend(a, b, r);
    }
    forall i: nat, a
      ensures g(Lines(i, j, job, p, a)) == one(a)
    {
      LinesCents(i, j, job, p, a, r);
    }
    PostingsCollect(at, j, job, p, allocations, g, one);
    if Writes(p, r) && r.job == j {
      CollectMarks(allocations, r.source, Debits(r), one);
    } else {
      CollectNothing(allocations, one);
    }
  }

  /** How much of the allocated cents a posting moves in the reservations and in the
      payouts of the job's owner. */
  function ReserveSign(p: Posting): int {
    match p case Reserve => -1 case Settle => 1 case Restore => 1 case Undo(_) => 0
  }
  function PaidSign(p: Posting): int {
    match p case Reserve => 0 case Settle => -1 case Restore => 0 case Undo(_) => 1
  }

  function OwnCents(owner: string, job: Job, cents: int): int { if owner == job.owner then cents else 0 }

  lemma {:induction false} LineSums(at: nat, j: nat, job: Job, p: Posting, a: Share, owner: string, id: string)
    ensures var ls := Lines(at, j, job, p, a);
            && Sum(ls, ReservedBy(owner)) == ReserveSign(p) * OwnCents(owner, job, a.cents)
            && Sum(ls, StripePaidBy(owner)) == PaidSign(p) * OwnCents(owner, job, a.cents)
            && Sum(ls, RowCents(id)) == 0
  {
    var ls := Lines(at, j, job, p, a);
    LinesSum(ls, ReservedBy(owner));
    LinesSum(ls, StripePaidBy(owner));
    LinesSum(ls, RowCents(id));
  }

  lemma {:induction false} Distribute(k: int, x: int, y: int)
    ensures k * (x + y) == k * x + k * y
  {
  }

  /** The same for sums. */
  lemma {:induction false} PostingsAddUp(at: nat, j: nat, job: Job, p: Posting, allocations: seq<Share>,
                                         g: seq<Entry> -> int, sign: int)
    requires g([]) == 0 && forall a, b :: g(a + b) == g(a) + g(b)
    requires forall i: nat, a :: g(Lines(i, j, job, p, a)) == sign * a.cents
    ensures g(Postings(at, j, job, p, allocations)) == sign * ShareTotal(allocations)
  {
    if allocations != [] {
      var n := |allocations| - 1;
      PostingsAddUp(at, j, job, p, allocations[..n], g, sign);
      Distribute(sign, ShareTotal(allocations[..n]), allocations[n].cents);
    }
  }

  lemma {:induction false} PostingsSum(at: nat, j: nat, job: Job, p: Posting, allocations: seq<Share>, f: Measure,
                                       sign: int)
    requires forall i: nat, a :: Sum(Lines(i, j, job, p, a), f) == sign * a.cents
    ensures Sum(Postings(at, j, job, p, allocations), f) == sign * ShareTotal(allocations)
  {
    var g := (es: seq<Entry>) => Sum(es, f);
    forall a, b
      ensures g(a + b) == g(a) + g(b)
    {
      SumAppend(a, b, f);
    }
    PostingsAddUp(at, j, job, p, allocations, g, sign);
  }

  lemma {:induction false} PostingsSums(at: nat, j: nat, job: Job, p: Posting, allocations: seq<Share>,
                                        owner: string, id: string)
    ensures var es := Postings(at, j, job, p, allocations);
            var mine := OwnCents(owner, job, ShareTotal(allocations));
            && Sum(es, ReservedBy(owner)) == ReserveSign(p) * mine
            && Sum(es, StripePaidBy(owner)) == PaidSign(p) * mine
            && Sum(es, RowCents(id)) == 0
  {
    forall i: nat, a
      ensures Sum(Lines(i, j, job, p, a), ReservedBy(owner)) == OwnSign(owner, job, ReserveSign(p)) * a.cents
      ensures Sum(Lines(i, j, job, p, a), StripePaidBy(owner)) == OwnSign(owner, job, PaidSign(p)) * a.cents
      ensures Sum(Lines(i, j, job, p, a), RowCents(id)) == 0 * a.cents
    {
      LineSums(i, j, job, p, a, owner, id);
    }
    PostingsSum(at, j, job, p, allocations, ReservedBy(owner), OwnSign(owner, job, ReserveSign(p)));
    PostingsSum(at, j, job, p, allocations, StripePaidBy(owner), OwnSign(owner, job, PaidSign(p)));
    PostingsSum(at, j, job, p, allocations, RowCents(id), 0);
  }

  function OwnSign(owner: string, job: Job, sign: int): int { if owner == job.owner then sign else 0 }

  lemma {:induction false} LinesSum(ls: seq<Entry>, f: Measure)
    requires 1 <= |ls| <= 2
    ensures Sum(ls, f) == f(ls[0]) + (if |ls| == 2 then f(ls[1]) else 0)
  {
    if |ls| == 1 {
      assert ls == [ls[0]];
      SumOne(ls[0], f);
    } else {
      assert ls == [ls[0], ls[1]];
      SumTwo(ls[0], ls[1], f);
    }
  }

  /** Every posted entry is well shaped and carries the job's owner and cycle. */
  predicate PostedOk(es: seq<Entry>, j: nat, job: Job, i: nat)
    requires i < |es|
  {
    var e := es[i];
    && EntryOk(es, i) && e.byStripe && IsPayoutTag(e.reference)
    && e.reference.job == j && e.reference.source == e.source && e.owner == job.owner && e.period == job.cycle
  }

  predicate PostedFrom(es: seq<Entry>, start: nat, j: nat, job: Job) {
    forall i: nat | start <= i < |es| :: PostedOk(es, j, job, i)
  }

  ghost predicate OriginalsOk(es: seq<Entry>, job: Job, p: Posting, allocations: seq<Share>) {
    p.Undo? ==> forall a :: a in allocations ==>
      && a.source in p.originals && p.originals[a.source] < |es|
      && var o := es[p.originals[a.source]];
         o.kind == Payout && o.byStripe && o.owner == job.owner && o.source == a.source && o.cents == -a.cents
  }

  lemma {:induction false} LinesShape(es: seq<Entry>, j: nat, job: Job, p: Posting, a: Share)
    requires OriginalsOk(es, job, p, [a])
    ensures PostedFrom(es + Lines(|es|, j, job, p, a), |es|, j, job)
  {
    var ls := Lines(|es|, j, job, p, a);
    var all := es + ls;
    assert a in [a];
    forall i: nat | |es| <= i < |all|
      ensures PostedOk(all, j, job, i)
    {
      assert all[i] == ls[i - |es|];
      if p.Undo? {
        assert all[p.originals[a.source]] == es[p.originals[a.source]];
      }
    }
  }

  lemma {:induction false} PostedTogether(es: seq<Entry>, front: seq<Entry>, ls: seq<Entry>, j: nat, job: Job)
    requires PostedFrom(es + front, |es|, j, job) && PostedFrom(es + front + ls, |es + front|, j, job)
    ensures PostedFrom(es + (front + ls), |es|, j, job)
  {
    var all := es + front + ls;
    assert es + (front + ls) == all;
    forall i: nat | |es| <= i < |all|
      ensures PostedOk(all, j, job, i)
    {
      if i < |es + front| {
        assert PostedOk(es + front, j, job, i);
      }
    }
  }

  lemma {:induction false} PostingsShape(es: seq<Entry>, j: nat, job: Job, p: Posting, allocations: seq<Share>)
    requires OriginalsOk(es, job, p, allocations)
    ensures PostedFrom(es + Postings(|es|, j, job, p, allocations), |es|, j, job)
  {
    if allocations != [] {
      var n := |allocations| - 1;
      var front := Postings(|es|, j, job, p, allocations[..n]);
      assert allocations[n] in allocations && forall a :: a in allocations[..n] ==> a in allocations;
      PostingsShape(es, j, job, p, allocations[..n]);
      LinesShape(es + front, j, job, p, allocations[n]);
      PostedTogether(es, front, Lines(|es| + |front|, j, job, p, allocations[n]), j, job);
    }
  }

  /** Position `at` is the first payout entry of a job and program. */
  predicate FirstPaid(es: seq<Entry>, j: nat, source: Source, at: nat) {
    && at < |es| && es[at].reference == PayoutOf(j, source)
    && Cents(es, PayoutOf(j, source)) != [] && es[at].cents == Cents(es, PayoutOf(j, source))[0]
  }

  lemma {:induction false} OriginalFound(es: seq<Entry>, j: nat, source: Source)
    requires Cents(es, PayoutOf(j, source)) != []
    ensures var at := FindReference(es, PayoutOf(j, source)); at.Some? && FirstPaid(es, j, source, at.value)
  {
    FoundFirst(es, PayoutOf(j, source));
  }

  lemma {:induction false} OriginalsFound(es: seq<Entry>, j: nat, allocations: seq<Share>)
    requires forall a :: a in allocations ==> Cents(es, PayoutOf(j, a.source)) != []
    ensures var o := Originals(es, j, allocations);
            o.Some? && forall a :: a in allocations ==> a.source in o.value && FirstPaid(es, j, a.source, o.value[a.source])
  {
    if allocations != [] {
      var n := |allocations| - 1;
      assert allocations == allocations[..n] + [allocations[n]];
      OriginalsFound(es, j, allocations[..n]);
      OriginalFound(es, j, allocations[n].source);
    }
  }

  lemma {:induction false} MarksFind(allocations: seq<Share>, a: Share, debit: bool)
    requires a in allocations
    ensures Marks(allocations, a.source, debit) != []
  {
    var n := |allocations| - 1;
    if allocations[n] != a {
      assert a in allocations[..n];
      MarksFind(allocations[..n], a, debit);
    }
  }

  // ---------------------------------------------------------------- job sums

  lemma {:induction false} SumJobsUpdate(jobs: seq<Job>, j: nat, job: Job, f: Job -> int)
    requires j < |jobs|
    ensures SumJobs(jobs[j := job], f) == SumJobs(jobs, f) - f(jobs[j]) + f(job)
  {
    var n := |jobs| - 1;
    if j == n {
      assert jobs[j := job][..n] == jobs[..n];
    } else {
      SumJobsUpdate(jobs[..n], j, job, f);
      assert jobs[j := job][..n] == jobs[..n][j := job];
    }
  }

  lemma {:induction false} SumJobsPush(jobs: seq<Job>, job: Job, f: Job -> int)
    ensures SumJobs(jobs + [job], f) == SumJobs(jobs, f) + f(job)
  {
    assert (jobs + [job])[..|jobs|] == jobs;
  }

  // ---------------------------------------------------------------- settlement

  lemma {:induction false} ShapeExtends(es: seq<Entry>, fs: seq<Entry>)
    requires ShapeOk(es)
    requires forall i: nat | |es| <= i < |es + fs| :: EntryOk(es + fs, i)
    ensures ShapeOk(es + fs)
  {
    forall i | 0 <= i < |es + fs|
      ensures EntryOk(es + fs, i)
    {
      if i < |es| {
        assert EntryOk(es, i);
      }
    }
  }

  /** Job j moves from its old flags to `job` while one posting is appended. */
  ghost predicate Moves(old_: seq<Job>, jobs: seq<Job>, j: nat, job: Job, p: Posting) {
    && j < |jobs| && jobs[j] == job && JobsOk(jobs)
    && (if j < |old_| then jobs == old_[j := job] else jobs == old_ + [job])
    && (j < |old_| ==> old_[j].owner == job.owner && old_[j].amount == job.amount && old_[j].allocations == job.allocations)
    && match p
       case Reserve => j == |old_| && !job.released && !job.paid
       case Settle => j < |old_| && !old_[j].released && !old_[j].paid && job.released && job.paid && !job.returned
       case Restore => j < |old_| && !old_[j].released && !old_[j].paid && job.released && !job.paid
       case Undo(_) => j < |old_| && old_[j].released && old_[j].paid && !old_[j].returned
                       && job.released && job.paid && job.returned
  }

  lemma {:induction false} PostingTags(es: seq<Entry>, was: seq<Job>, jobs: seq<Job>, at: nat, j: nat, job: Job,
                                       p: Posting)
    requires TagsOk(es, was) && Moves(was, jobs, j, job, p)
    ensures TagsOk(es + Postings(at, j, job, p, job.allocations), jobs)
  {
    var fs := Postings(at, j, job, p, job.allocations);
    forall k: nat, s: Source
      ensures JobTagged(es + fs, jobs, k, s)
    {
      PostedUnder(es, at, j, job, p, HoldOf(k, s));
      PostedUnder(es, at, j, job, p, ReleaseOf(k, s));
      PostedUnder(es, at, j, job, p, PayoutOf(k, s));
      PostedUnder(es, at, j, job, p, ReturnOf(k, s));
      assert JobTagged(es, was, k, s);
      JobTagMove(es, es + fs, was, jobs, j, job, p, k, s);
    }
  }

  /** What a posting adds under the four references of one job and program. */
  ghost predicate PostedTo(es: seq<Entry>, all: seq<Entry>, j: nat, allocations: seq<Share>, p: Posting, k: nat, s: Source) {
    && Cents(all, HoldOf(k, s)) == Join(Cents(es, HoldOf(k, s)), PostedCents(p, j, allocations, HoldOf(k, s)))
    && Cents(all, ReleaseOf(k, s)) == Join(Cents(es, ReleaseOf(k, s)), PostedCents(p, j, allocations, ReleaseOf(k, s)))
    && Cents(all, PayoutOf(k, s)) == Join(Cents(es, PayoutOf(k, s)), PostedCents(p, j, allocations, PayoutOf(k, s)))
    && Cents(all, ReturnOf(k, s)) == Join(Cents(es, ReturnOf(k, s)), PostedCents(p, j, allocations, ReturnOf(k, s)))
  }

  lemma {:induction false} JobTagMove(es: seq<Entry>, all: seq<Entry>, was: seq<Job>, jobs: seq<Job>, j: nat,
                                      job: Job, p: Posting, k: nat, s: Source)
    requires JobTagged(es, was, k, s) && Moves(was, jobs, j, job, p)
    requires PostedTo(es, all, j, job.allocations, p, k, s)
    ensures JobTagged(all, jobs, k, s)
  {
    assert Marks([], s, true) == [] && Marks([], s, false) == [];
  }

  lemma {:induction false} PostedUnder(es: seq<Entry>, at: nat, j: nat, job: Job, p: Posting, r: Reference)
    ensures Cents(es + Postings(at, j, job, p, job.allocations), r)
         == Join(Cents(es, r), PostedCents(p, j, job.allocations, r))
  {
    var fs := Postings(at, j, job, p, job.allocations);
    PostingsCents(at, j, job, p, job.allocations, r);
    CentsAppend(es, fs, r);
  }

  lemma {:induction false} PostingOwners(es: seq<Entry>, was: seq<Job>, jobs: seq<Job>, at: nat, j: nat, job: Job,
                                         p: Posting)
    requires OwnersOk(es, was) && Moves(was, jobs, j, job, p)
    ensures OwnersOk(es + Postings(at, j, job, p, job.allocations), jobs)
  {
    var fs := Postings(at, j, job, p, job.allocations);
    forall owner: string
      ensures OwnerOk(es + fs, jobs, owner)
    {
      assert OwnerOk(es, was, owner);
      assert JobOk(job);
      PostingsSums(at, j, job, p, job.allocations, owner, "");
      SumAppend(es, fs, ReservedBy(owner));
      SumAppend(es, fs, StripePaidBy(owner));
      if j < |was| {
        SumJobsUpdate(was, j, job, UnreleasedOf(owner));
        SumJobsUpdate(was, j, job, PaidOutOf(owner));
      } else {
        SumJobsPush(was, job, UnreleasedOf(owner));
        SumJobsPush(was, job, PaidOutOf(owner));
      }
    }
  }

  lemma {:induction false} PostingStep(b: Book, jobs: seq<Job>, j: nat, job: Job, p: Posting)
    requires Valid(b) && Moves(b.jobs, jobs, j, job, p)
    requires OriginalsOk(b.entries, job, p, job.allocations)
    ensures Valid(b.(jobs := jobs, entries := b.entries + Postings(|b.entries|, j, job, p, job.allocations)))
  {
    var es := b.entries;
    var fs := Postings(|es|, j, job, p, job.allocations);
    PostingTags(es, b.jobs, jobs, |es|, j, job, p);
    PostingOwners(es, b.jobs, jobs, |es|, j, job, p);
    forall id: string
      ensures RowTracked(es + fs, b.rows, id)
    {
      assert RowTracked(es, b.rows, id);
      PostingsSums(|es|, j, job, p, job.allocations, "", id);
      SumAppend(es, fs, RowCents(id));
    }
    PostingsShape(es, j, job, p, job.allocations);
    forall i: nat | |es| <= i < |es + fs|
      ensures EntryOk(es + fs, i) && (es + fs)[i].byStripe && IsPayoutTag((es + fs)[i].reference)
      ensures var e := (es + fs)[i];
              e.reference.job == j && e.reference.source == e.source && e.owner == job.owner
    {
      assert PostedOk(es + fs, j, job, i);
    }
    ShapeExtends(es, fs);
  }

  /** The same job with other fields, the money flags as they were. */
  predicate SameMoney(was: Job, job: Job) {
    && job.owner == was.owner && job.cycle == was.cycle && job.amount == was.amount
    && job.allocations == was.allocations && job.released == was.released && job.paid == was.paid
    && (job.paid ==> job.returned == was.returned)
  }

  lemma {:induction false} JobFieldsKeepValid(b: Book, j: nat, job: Job)
    requires Valid(b) && j < |b.jobs| && SameMoney(b.jobs[j], job) && JobOk(job)
    ensures Valid(b.(jobs := b.jobs[j := job]))
  {
    var jobs := b.jobs[j := job];
    SameSlots(b.jobs, jobs);
    forall k: nat, s: Source
      ensures JobTagged(b.entries, jobs, k, s)
    {
      assert JobTagged(b.entries, b.jobs, k, s);
    }
    forall owner: string
      ensures OwnerOk(b.entries, jobs, owner)
    {
      assert OwnerOk(b.entries, b.jobs, owner);
      SumJobsUpdate(b.jobs, j, job, UnreleasedOf(owner));
      SumJobsUpdate(b.jobs, j, job, PaidOutOf(owner));
    }
  }

  /** A paid job has its payout entries, so undoing it finds them all. */
  lemma {:induction false} PaidHasOriginals(b: Book, j: nat)
    requires Valid(b) && j < |b.jobs| && b.jobs[j].paid
    ensures var o := Originals(b.entries, j, b.jobs[j].allocations);
            o.Some? && forall originals :: originals == o.value ==>
                         OriginalsOk(b.entries, b.jobs[j], Undo(originals), b.jobs[j].allocations)
  {
    var job := b.jobs[j];
    forall a | a in job.allocations
      ensures Cents(b.entries, PayoutOf(j, a.source)) == [-a.cents]
    {
      assert JobTagged(b.entries, b.jobs, j, a.source);
      var i :| 0 <= i < |job.allocations| && job.allocations[i] == a;
      assert JobOk(job);
      MarksExactly(job.allocations, i, true);
    }
    OriginalsFound(b.entries, j, job.allocations);
    var o := Originals(b.entries, j, job.allocations).value;
    forall a | a in job.allocations
      ensures var e := b.entries[o[a.source]];
              e.kind == Payout && e.byStripe && e.owner == job.owner && e.source == a.source && e.cents == -a.cents
    {
      assert EntryOk(b.entries, o[a.source]);
    }
  }

  /** For every provider status in any order, settlement succeeds and keeps every
      invariant: the missing-original throw cannot happen. */
  lemma {:induction false} SettleKeepsValid(b: Book, j: nat, status: Status, at: nat)
    requires Valid(b) && j < |b.jobs|
    ensures var r := SettleInState(b, j, status, at);
            r.Settled? && Valid(r.book) && |r.book.jobs| == |b.jobs| && r.book.rows == b.rows
  {
    var job := b.jobs[j];
    if Settleable(job, status) {
      if Closing(status) && job.paid {
        PaidHasOriginals(b, j);
      }
      if SettlePosting(b.entries, j, job, status).None? {
        assert b.entries + [] == b.entries;
        SettledQuietly(b, j, status, at);
      } else {
        SettledMoves(b, j, status, at);
        SettledPosts(b, j, status, at);
      }
    }
  }

  lemma {:induction false} SettledQuietly(b: Book, j: nat, status: Status, at: nat)
    requires Valid(b) && j < |b.jobs| && Settleable(b.jobs[j], status) && (Closing(status) ==> !b.jobs[j].paid)
    requires SettlePosting(b.entries, j, b.jobs[j], status).None?
    ensures Valid(b.(jobs := b.jobs[j := SettledJob(b.jobs[j], status, at)]))
  {
    assert JobOk(b.jobs[j]);
    JobFieldsKeepValid(b, j, SettledJob(b.jobs[j], status, at));
  }

  lemma {:induction false} SettledPosts(b: Book, j: nat, status: Status, at: nat)
    requires Valid(b) && j < |b.jobs| && Settleable(b.jobs[j], status)
    requires Closing(status) && b.jobs[j].paid ==> Originals(b.entries, j, b.jobs[j].allocations).Some?
    requires SettlePosting(b.entries, j, b.jobs[j], status).Some?
    requires var after := SettledJob(b.jobs[j], status, at);
             var p := SettlePosting(b.entries, j, b.jobs[j], status).value;
             Moves(b.jobs, b.jobs[j := after], j, after, p) && OriginalsOk(b.entries, after, p, after.allocations)
    ensures var after := SettledJob(b.jobs[j], status, at);
            var p := SettlePosting(b.entries, j, b.jobs[j], status).value;
            Valid(b.(jobs := b.jobs[j := after], entries := b.entries + Postings(|b.entries|, j, b.jobs[j], p, b.jobs[j].allocations)))
  {
    var job, after := b.jobs[j], SettledJob(b.jobs[j], status, at);
    var p := SettlePosting(b.entries, j, job, status).value;
    PostingsIgnoreStatus(|b.entries|, j, job, after, p, job.allocations);
    PostingStep(b, b.jobs[j := after], j, after, p);
  }

  lemma {:induction false} SettledMoves(b: Book, j: nat, status: Status, at: nat)
    requires Valid(b) && j < |b.jobs| && Settleable(b.jobs[j], status)
    requires Closing(status) && b.jobs[j].paid ==> Originals(b.entries, j, b.jobs[j].allocations).Some?
    requires SettlePosting(b.entries, j, b.jobs[j], status).Some?
    ensures var after := SettledJob(b.jobs[j], status, at);
            var p := SettlePosting(b.entries, j, b.jobs[j], status).value;
            Moves(b.jobs, b.jobs[j := after], j, after, p) && OriginalsOk(b.entries, after, p, after.allocations)
  {
    var job := b.jobs[j];
    assert JobOk(job);
    SameSlots(b.jobs, b.jobs[j := SettledJob(job, status, at)]);
    assert JobsOk(b.jobs[j := SettledJob(job, status, at)]);
    if Closing(status) && job.paid {
      PaidHasOriginals(b, j);
    }
  }

  lemma {:induction false} PostingsIgnoreStatus(at: nat, j: nat, job: Job, other: Job, p: Posting,
                                                allocations: seq<Share>)
    requires job.owner == other.owner && job.cycle == other.cycle
    ensures Postings(at, j, job, p, allocations) == Postings(at, j, other, p, allocations)
  {
    if allocations != [] {
      PostingsIgnoreStatus(at, j, job, other, p, allocations[..|allocations| - 1]);
    }
  }

  // ---------------------------------------------------------------- the closed form per job

  /** All entries of one allocation: reservation, release, payout and return. */
  function AllocationCents(j: nat, s: Source): Measure {
    (e: Entry) => if e.reference in {HoldOf(j, s), ReleaseOf(j, s), PayoutOf(j, s), ReturnOf(j, s)} then e.cents else 0
  }

  function TaggedCents(r: Reference): Measure {
    (e: Entry) => if e.reference == r then e.cents else 0
  }

  lemma {:induction false} TaggedTotal(es: seq<Entry>, r: Reference)
    ensures Sum(es, TaggedCents(r)) == Total(Cents(es, r))
  {
    if es != [] {
      TaggedTotal(es[..|es| - 1], r);
      var e := es[|es| - 1];
      TotalAppend(Cents(es[..|es| - 1], r), if e.reference == r then [e.cents] else []);
      TotalOne(e.cents);
    }
  }

  lemma {:induction false} AllocationSplits(es: seq<Entry>, j: nat, s: Source)
    ensures Sum(es, AllocationCents(j, s))
         == Total(Cents(es, HoldOf(j, s))) + Total(Cents(es, ReleaseOf(j, s)))
          + Total(Cents(es, PayoutOf(j, s))) + Total(Cents(es, ReturnOf(j, s)))
  {
    TaggedTotal(es, HoldOf(j, s));
    TaggedTotal(es, ReleaseOf(j, s));
    TaggedTotal(es, PayoutOf(j, s));
    TaggedTotal(es, ReturnOf(j, s));
    FourMeasures(es, j, s);
  }

  lemma {:induction false} FourMeasures(es: seq<Entry>, j: nat, s: Source)
    ensures Sum(es, AllocationCents(j, s))
         == Sum(es, TaggedCents(HoldOf(j, s))) + Sum(es, TaggedCents(ReleaseOf(j, s)))
          + Sum(es, TaggedCents(PayoutOf(j, s))) + Sum(es, TaggedCents(ReturnOf(j, s)))
  {
    if es != [] {
      FourMeasures(es[..|es| - 1], j, s);
    }
  }

  /** With distinct programs an allocation is the only one of its program. */
  lemma {:induction false} MarksExactly(allocations: seq<Share>, i: nat, debit: bool)
    requires i < |allocations| && DistinctSources(allocations)
    ensures Marks(allocations, allocations[i].source, debit) == Mark(allocations[i], allocations[i].source, debit)
  {
    var n := |allocations| - 1;
    if i == n {
      MarksNone(allocations[..n], allocations[i].source, debit);
    } else {
      MarksExactly(allocations[..n], i, debit);
    }
  }

  lemma {:induction false} MarksNone(allocations: seq<Share>, s: Source, debit: bool)
    requires forall k | 0 <= k < |allocations| :: allocations[k].source != s
    ensures Marks(allocations, s, debit) == []
  {
    if allocations != [] {
      MarksNone(allocations[..|allocations| - 1], s, debit);
    }
  }

  lemma {:induction false} TotalOne(x: int)
    ensures Total([x]) == x && Total([]) == 0
  {
    assert [x][..0] == [];
  }

  lemma {:induction false} OnlyMark(allocations: seq<Share>, i: nat, debit: bool)
    requires i < |allocations| && DistinctSources(allocations)
    ensures var a := allocations[i];
            One(Marks(allocations, a.source, debit), if debit then -a.cents else a.cents)
  {
    MarksExactly(allocations, i, debit);
  }

  predicate One(s: seq<int>, x: int) { |s| == 1 && s[0] == x }

  lemma {:induction false} TotalIf(s: seq<int>, present: bool, x: int)
    requires if present then One(s, x) else s == []
    ensures Total(s) == if present then x else 0
  {
  }

  /** The closed form: an allocation's entries cancel exactly when the money was given
      back, and otherwise hold or pay its cents. There is one reservation, and at most one
      payout and one return. */
  lemma {:induction false} JobClosedForm(b: Book, j: nat, i: nat)
    requires Valid(b) && j < |b.jobs| && i < |b.jobs[j].allocations|
    ensures var job := b.jobs[j];
            var a := job.allocations[i];
            && Sum(b.entries, AllocationCents(j, a.source))
               == (if (job.released && !job.paid) || job.returned then 0 else -a.cents)
            && One(Cents(b.entries, HoldOf(j, a.source)), -a.cents)
            && |Cents(b.entries, PayoutOf(j, a.source))| == (if job.paid then 1 else 0)
            && |Cents(b.entries, ReturnOf(j, a.source))| == (if job.paid && job.returned then 1 else 0)
  {
    var job := b.jobs[j];
    assert JobTagged(b.entries, b.jobs, j, job.allocations[i].source);
    assert JobOk(job);
    OneClosedForm(b.entries, job, j, job.allocations[i], i);
  }

  lemma {:induction false} OneClosedForm(es: seq<Entry>, job: Job, j: nat, a: Share, i: nat)
    requires i < |job.allocations| && job.allocations[i] == a && DistinctSources(job.allocations)
    requires (job.paid ==> job.released) && (job.returned ==> job.released)
    requires Tagged(es, j, a.source, job.allocations, job.released, job.paid, job.returned)
    ensures Sum(es, AllocationCents(j, a.source)) == (if (job.released && !job.paid) || job.returned then 0 else -a.cents)
    ensures One(Cents(es, HoldOf(j, a.source)), -a.cents)
    ensures |Cents(es, PayoutOf(j, a.source))| == (if job.paid then 1 else 0)
    ensures |Cents(es, ReturnOf(j, a.source))| == (if job.paid && job.returned then 1 else 0)
  {
    OnlyMark(job.allocations, i, true);
    OnlyMark(job.allocations, i, false);
    TotalIf(Cents(es, HoldOf(j, a.source)), true, -a.cents);
    TotalIf(Cents(es, ReleaseOf(j, a.source)), job.released, a.cents);
    TotalIf(Cents(es, PayoutOf(j, a.source)), job.paid, -a.cents);
    TotalIf(Cents(es, ReturnOf(j, a.source)), job.paid && job.returned, a.cents);
    AllocationSplits(es, j, a.source);
  }

  // ---------------------------------------------------------------- admission arithmetic

  /** What a list of totals is worth with its negative entries left out. */
  function Positive(ts: seq<Share>): nat {
    if ts == [] then 0 else Positive(ts[..|ts| - 1]) + Max(0, ts[|ts| - 1].cents)
  }

  lemma {:induction false} PositiveMinusDebt(ts: seq<Share>)
    ensures ShareTotal(ts) == Positive(ts) - Debt(ts)
  {
    if ts != [] {
      PositiveMinusDebt(ts[..|ts| - 1]);
    }
  }

  lemma {:induction false} ShareTotalAppend(front: seq<Share>, ts: seq<Share>)
    requires |ts| <= 1
    ensures ShareTotal(front + ts) == ShareTotal(front) + (if ts == [] then 0 else ts[0].cents)
  {
    if ts == [] {
      assert front + ts == front;
    } else {
      assert (front + ts)[..|front|] == front;
    }
  }

  /** One program of the greedy offset. */
  lemma {:induction false} OffsetOne(front: seq<Share>, t: Share, left: nat)
    requires t.cents > 0
    ensures var taken := Min(t.cents, left);
            ShareTotal(if t.cents > taken then front + [Share(t.source, t.cents - taken)] else front)
            == ShareTotal(front) + t.cents - taken
  {
    if t.cents > left {
      ShareTotalAppend(front, [Share(t.source, t.cents - left)]);
    }
  }

  lemma {:induction false} OffsetAmount(ts: seq<Share>, debt: nat)
    ensures var (allocations, left) := Offset(ts, debt);
            && ShareTotal(allocations) == Positive(ts) - (debt - left)
            && left == Max(0, debt - Positive(ts))
  {
    if ts != [] {
      var t := ts[|ts| - 1];
      OffsetAmount(ts[..|ts| - 1], debt);
      if t.cents > 0 {
        var (front, left) := Offset(ts[..|ts| - 1], debt);
        OffsetOne(front, t, left);
      }
    }
  }

  /** An allocation is a positive part of one of the totals. */
  predicate PartOf(ts: seq<Share>, a: Share) {
    exists k :: 0 <= k < |ts| && ts[k].source == a.source && 0 < a.cents <= ts[k].cents
  }

  lemma {:induction false} OffsetParts(ts: seq<Share>, debt: nat)
    requires DistinctSources(ts)
    ensures var allocations := Offset(ts, debt).0;
            DistinctSources(allocations) && forall a :: a in allocations ==> PartOf(ts, a)
  {
    if ts != [] {
      var n := |ts| - 1;
      var front := Offset(ts[..n], debt).0;
      OffsetParts(ts[..n], debt);
      forall a | a in front
        ensures PartOf(ts, a) && a.source != ts[n].source
      {
        var k :| 0 <= k < |ts[..n]| && ts[..n][k].source == a.source && 0 < a.cents <= ts[..n][k].cents;
        assert ts[k] == ts[..n][k];
      }
      var allocations := Offset(ts, debt).0;
      forall a | a in allocations
        ensures PartOf(ts, a)
      {
        if a !in front {
          assert ts[n].source == a.source;
        }
      }
    }
  }

  lemma {:induction false} ThreeShares(ts: seq<Share>)
    requires |ts| == 3
    ensures ShareTotal(ts) == ts[0].cents + ts[1].cents + ts[2].cents
  {
    var two := ts[..2];
    var one := two[..1];
    assert one[..0] == [] && ShareTotal(one) == ts[0].cents;
    assert ShareTotal(two) == ShareTotal(one) + ts[1].cents;
  }

  /** The greedy offset pays out exactly the positive part of the combined conservative
      total, and no program gives more than it has. */
  lemma {:induction false} AdmissionAmount(es: seq<Entry>, owner: string, cycle: nat)
    ensures var ts := Totals(es, owner, cycle);
            var allocations := Allocations(es, owner, cycle);
            && ShareTotal(allocations) == Max(0, ts[0].cents + ts[1].cents + ts[2].cents)
            && DistinctSources(allocations)
            && forall a :: a in allocations ==> 0 < a.cents <= Sum(es, Conservative(owner, a.source, cycle))
  {
    var ts := Totals(es, owner, cycle);
    OffsetAmount(ts, Debt(ts));
    PositiveMinusDebt(ts);
    OffsetParts(ts, Debt(ts));
    ThreeShares(ts);
    forall a | a in Allocations(es, owner, cycle)
      ensures 0 < a.cents <= Sum(es, Conservative(owner, a.source, cycle))
    {
      assert PartOf(ts, a);
    }
  }

  lemma {:induction false} NewSlot(jobs: seq<Job>, job: Job)
    requires OneJobEach(jobs) && !HasJob(jobs, job.owner, job.cycle)
    ensures OneJobEach(jobs + [job])
  {
    forall j: nat, k: nat | j < k < |jobs + [job]|
      ensures Slot(jobs + [job], j) != Slot(jobs + [job], k)
    {
      if k < |jobs| {
        assert Slot(jobs, j) != Slot(jobs, k);
      } else {
        assert jobs[j].owner != job.owner || jobs[j].cycle != job.cycle;
      }
    }
  }

  lemma {:induction false} AdmitKeepsValid(b: Book, owner: string, cycle: nat, recipient: string, account: string,
                                           now: nat)
    requires Valid(b)
    ensures Valid(AdmitPayout(b, owner, cycle, recipient, account, now))
  {
    var allocations := Allocations(b.entries, owner, cycle);
    AdmissionAmount(b.entries, owner, cycle);
    if !HasJob(b.jobs, owner, cycle) && ShareTotal(allocations) >= 1 {
      var job := NewJob(owner, cycle, recipient, account, now, allocations);
      NewSlot(b.jobs, job);
      PostingStep(b, b.jobs + [job], |b.jobs|, job, Reserve);
    }
  }

  /** What the reservation adds to a measure that counts each debit of the owner's program
      in full. */
  lemma {:induction false} HoldsSum(at: nat, j: nat, job: Job, allocations: seq<Share>, s: Source, f: Measure)
    requires forall e: Entry :: e.owner == job.owner && e.period == job.cycle && e.cents <= 0 ==>
               f(e) == (if e.source == s then e.cents else 0)
    requires forall i | 0 <= i < |allocations| :: allocations[i].cents > 0
    ensures Sum(Postings(at, j, job, Reserve, allocations), f) == -Total(Marks(allocations, s, false))
  {
    if allocations != [] {
      var n := |allocations| - 1;
      var front := Postings(at, j, job, Reserve, allocations[..n]);
      HoldsSum(at, j, job, allocations[..n], s, f);
      var ls := Lines(at + |front|, j, job, Reserve, allocations[n]);
      SumAppend(front, ls, f);
      LinesSum(ls, f);
      MarksTotal(allocations, s);
    }
  }

  lemma {:induction false} MarksTotal(allocations: seq<Share>, s: Source)
    requires allocations != []
    ensures var n := |allocations| - 1;
            (Total(Marks(allocations, s, false))
             == Total(Marks(allocations[..n], s, false)) + (if allocations[n].source == s then allocations[n].cents else 0))
  {
    var n := |allocations| - 1;
    TotalAppend(Marks(allocations[..n], s, false), Mark(allocations[n], s, false));
    TotalOne(allocations[n].cents);
  }

  lemma {:induction false} MarksTotals(allocations: seq<Share>)
    ensures ShareTotal(allocations)
         == Total(Marks(allocations, Referral, false)) + Total(Marks(allocations, Exchange, false))
          + Total(Marks(allocations, Marketplace, false))
  {
    TotalOne(0);
    if allocations != [] {
      MarksTotals(allocations[..|allocations| - 1]);
      MarksTotal(allocations, Referral);
      MarksTotal(allocations, Exchange);
      MarksTotal(allocations, Marketplace);
    }
  }

  lemma {:induction false} ConservativeBelowBalance(es: seq<Entry>, owner: string, s: Source, cycle: nat)
    ensures Sum(es, Conservative(owner, s, cycle)) <= Balance(es, owner, s)
  {
    SumBound(es, Conservative(owner, s, cycle), BalanceOf(owner, s));
  }

  lemma {:induction false} MarksAtMost(es: seq<Entry>, owner: string, cycle: nat, s: Source)
    ensures Total(Marks(Allocations(es, owner, cycle), s, false)) <= Max(0, Sum(es, Conservative(owner, s, cycle)))
  {
    var allocations := Allocations(es, owner, cycle);
    AdmissionAmount(es, owner, cycle);
    TotalOne(0);
    if i :| 0 <= i < |allocations| && allocations[i].source == s {
      assert allocations[i] in allocations;
      MarksExactly(allocations, i, false);
      TotalOne(allocations[i].cents);
    } else {
      MarksNone(allocations, s, false);
    }
  }

  /** After the reservation: nothing more is payable in this cycle, and neither the
      combined balance nor the balance of an allocated program is negative. */
  lemma {:induction false} AdmissionLeavesNothingOwed(b: Book, owner: string, cycle: nat, recipient: string,
                                                      account: string, now: nat)
    requires Valid(b) && !HasJob(b.jobs, owner, cycle) && ShareTotal(Allocations(b.entries, owner, cycle)) >= 1
    ensures var after := AdmitPayout(b, owner, cycle, recipient, account, now).entries;
            var allocations := Allocations(b.entries, owner, cycle);
            && ShareTotal(Allocations(after, owner, cycle)) == 0
            && CombinedBalance(after, owner) == CombinedBalance(b.entries, owner) - ShareTotal(allocations)
            && CombinedBalance(after, owner) >= 0
            && forall a :: a in allocations ==> Balance(after, owner, a.source) >= 0
  {
    var es := b.entries;
    var allocations := Allocations(es, owner, cycle);
    var job := NewJob(owner, cycle, recipient, account, now, allocations);
    var fs := Postings(|es|, |b.jobs|, job, Reserve, allocations);
    AdmissionAmount(es, owner, cycle);
    forall s: Source
      ensures Sum(es + fs, Conservative(owner, s, cycle)) == Sum(es, Conservative(owner, s, cycle)) - Total(Marks(allocations, s, false))
      ensures Balance(es + fs, owner, s) == Balance(es, owner, s) - Total(Marks(allocations, s, false))
      ensures Sum(es, Conservative(owner, s, cycle)) <= Balance(es, owner, s)
    {
      SumAppend(es, fs, Conservative(owner, s, cycle));
      SumAppend(es, fs, BalanceOf(owner, s));
      HoldsSum(|es|, |b.jobs|, job, allocations, s, Conservative(owner, s, cycle));
      HoldsSum(|es|, |b.jobs|, job, allocations, s, BalanceOf(owner, s));
      ConservativeBelowBalance(es, owner, s, cycle);
    }
    MarksTotals(allocations);
    AdmissionAmount(es + fs, owner, cycle);
    forall a | a in allocations
      ensures Balance(es + fs, owner, a.source) >= 0
    {
      MarksAtMost(es, owner, cycle, a.source);
    }
  }
}
