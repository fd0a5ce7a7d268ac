/** What a provider status means for a payout job, its entries and the balances. */
module Settlement {
  import opened Basics
  import opened Ledger
  import opened Book
  import opened BookInvariants
  import opened Payouts

  // ---------------------------------------------------------------- what a status says

  /** A job that takes no further status. */
  predicate Ended(job: Job) { job.returned || job.status == Failed || job.status == Canceled }

  /** Money that is not going to arrive. */
  predicate Ends(s: Status) { s == Failed || s == Canceled || s == Returned }

  /** The job after a status: what it is about stays, and the flags say what happened to the
      money. Only a posted payout clears the error. */
  predicate Told(was: Job, job: Job, s: Status, at: nat) {
    && job.owner == was.owner && job.cycle == was.cycle && job.recipient == was.recipient && job.account == was.account
    && job.amount == was.amount && job.allocations == was.allocations && job.created == was.created
    && job.stripeId == was.stripeId && job.conflict == was.conflict
    && job.status == s && job.checked == at
    && job.error == (if s == Posted then None else was.error)
    && job.paid == (was.paid || s == Posted)
    && job.released == (was.released || s != Processing)
    && job.returned == (Ends(s) && (was.paid || s == Returned))
  }

  /** The entries of one allocation: paid once when the payout has posted, nothing left of
      it when the money came back. */
  ghost predicate Accounted(es: seq<Entry>, j: nat, a: Share, job: Job) {
    && Cents(es, PayoutOf(j, a.source)) == (if job.paid then [-a.cents] else [])
    && Sum(es, AllocationCents(j, a.source)) == (if Ends(job.status) then 0 else -a.cents)
  }

  /** The program of one of the allocations. */
  predicate HasSource(allocations: seq<Share>, s: Source) { exists a :: a in allocations && a.source == s }

  /** Allocated cents are taken out of the balances, stay out, or come back. */
  datatype Flow = Taken | Kept | GivenBack

  function Flowed(flow: Flow, cents: int): int {
    match flow case Taken => -cents case Kept => 0 case GivenBack => cents
  }

  /** How the balances move: the owner's by each allocation, no other at all. */
  ghost predicate BalancesMove(es: seq<Entry>, after: seq<Entry>, job: Job, flow: Flow) {
    && (forall a | a in job.allocations ::
          Balance(after, job.owner, a.source) == Balance(es, job.owner, a.source) + Flowed(flow, a.cents))
    && (forall owner, s | owner != job.owner || !HasSource(job.allocations, s) ::
          Balance(after, owner, s) == Balance(es, owner, s))
  }

  /** New entries stand behind the old ones and belong to the job's owner and cycle. */
  predicate AppendedFor(es: seq<Entry>, after: seq<Entry>, job: Job) {
    && |es| <= |after| && after[..|es|] == es
    && forall i | |es| <= i < |after| :: after[i].owner == job.owner && after[i].period == job.cycle && after[i].byStripe
  }

  // ---------------------------------------------------------------- balances

  /** What a posting of these cents adds to a balance. */
  function Moved(owner: string, job: Job, p: Posting, cents: int): int {
    if owner != job.owner then 0 else
      match p case Reserve => -cents case Settle => 0 case Restore => cents case Undo(_) => cents
  }

  lemma {:induction false} LineBalance(at: nat, j: nat, job: Job, p: Posting, a: Share, owner: string, s: Source)
    ensures Sum(Lines(at, j, job, p, a), BalanceOf(owner, s)) == Moved(owner, job, p, CentsIn(a, s))
  {
    LinesSum(Lines(at, j, job, p, a), BalanceOf(owner, s));
  }

  lemma {:induction false} MovedAdds(owner: string, job: Job, p: Posting, x: int, y: int)
    ensures Moved(owner, job, p, x + y) == Moved(owner, job, p, x) + Moved(owner, job, p, y)
  {
  }

  function CentsIn(a: Share, s: Source): int { if a.source == s then a.cents else 0 }

  function Gather(allocations: seq<Share>, one: Share -> int): int {
    if allocations == [] then 0 else Gather(allocations[..|allocations| - 1], one) + one(allocations[|allocations| - 1])
  }

  /** What adds up over appending adds up over the postings line by line. */
  lemma {:induction false} PostingsGather(at: nat, j: nat, job: Job, p: Posting, allocations: seq<Share>,
                                          g: seq<Entry> -> int, one: Share -> int)
    requires g([]) == 0 && forall a, b :: g(a + b) == g(a) + g(b)
    requires forall i: nat, a :: g(Lines(i, j, job, p, a)) == one(a)
    ensures g(Postings(at, j, job, p, allocations)) == Gather(allocations, one)
  {
    if allocations != [] {
      PostingsGather(at, j, job, p, allocations[..|allocations| - 1], g, one);
    }
  }

  lemma {:induction false} GatherMoved(allocations: seq<Share>, owner: string, job: Job, p: Posting, s: Source, one: Share -> int)
    requires forall a :: one(a) == Moved(owner, job, p, CentsIn(a, s))
    ensures Gather(allocations, one) == Moved(owner, job, p, Total(Marks(allocations, s, false)))
  {
    if allocations == [] {
      TotalOne(0);
    } else {
      var n := |allocations| - 1;
      GatherMoved(allocations[..n], owner, job, p, s, one);
      MarksTotal(allocations, s);
      MovedAdds(owner, job, p, Total(Marks(allocations[..n], s, false)), CentsIn(allocations[n], s));
    }
  }

  lemma {:induction false} PostingsBalance(at: nat, j: nat, job: Job, p: Posting, allocations: seq<Share>,
                                           owner: string, s: Source)
    ensures Sum(Postings(at, j, job, p, allocations), BalanceOf(owner, s))
         == Moved(owner, job, p, Total(Marks(allocations, s, false)))
  {
    var g := (es: seq<Entry>) => Sum(es, BalanceOf(owner, s));
    var one := (a: Share) => Moved(owner, job, p, CentsIn(a, s));
    forall a, b
      ensures g(a + b) == g(a) + g(b)
    {
      SumAppend(a, b, BalanceOf(owner, s));
    }
    forall i: nat, a
      ensures g(Lines(i, j, job, p, a)) == one(a)
    {
      LineBalance(i, j, job, p, a, owner, s);
    }
    PostingsGather(at, j, job, p, allocations, g, one);
    GatherMoved(allocations, owner, job, p, s, one);
  }

  lemma {:induction false} AllocatedTotal(allocations: seq<Share>, a: Share)
    requires DistinctSources(allocations) && a in allocations
    ensures Total(Marks(allocations, a.source, false)) == a.cents
  {
    var i :| 0 <= i < |allocations| && allocations[i] == a;
    MarksExactly(allocations, i, false);
    TotalOne(a.cents);
  }

  function FlowOf(p: Posting): Flow {
    match p case Reserve => Taken case Settle => Kept case Restore => GivenBack case Undo(_) => GivenBack
  }

  lemma {:induction false} PostedBalance(es: seq<Entry>, j: nat, job: Job, p: Posting, owner: string, s: Source)
    ensures Balance(es + Postings(|es|, j, job, p, job.allocations), owner, s)
         == Balance(es, owner, s) + Moved(owner, job, p, Total(Marks(job.allocations, s, false)))
  {
    SumAppend(es, Postings(|es|, j, job, p, job.allocations), BalanceOf(owner, s));
    PostingsBalance(|es|, j, job, p, job.allocations, owner, s);
  }

  lemma {:induction false} AllocationMoves(es: seq<Entry>, j: nat, job: Job, p: Posting, a: Share)
    requires DistinctSources(job.allocations) && a in job.allocations
    ensures Balance(es + Postings(|es|, j, job, p, job.allocations), job.owner, a.source)
         == Balance(es, job.owner, a.source) + Flowed(FlowOf(p), a.cents)
  {
    PostedBalance(es, j, job, p, job.owner, a.source);
    AllocatedTotal(job.allocations, a);
  }

  lemma {:induction false} OthersStay(es: seq<Entry>, j: nat, job: Job, p: Posting, owner: string, s: Source)
    requires owner != job.owner || !HasSource(job.allocations, s)
    ensures Balance(es + Postings(|es|, j, job, p, job.allocations), owner, s) == Balance(es, owner, s)
  {
    PostedBalance(es, j, job, p, owner, s);
    if owner == job.owner {
      MarksNone(job.allocations, s, false);
      TotalOne(0);
    }
  }

  lemma {:induction false} PostingsMoveBalances(es: seq<Entry>, after: seq<Entry>, j: nat, job: Job, p: Posting)
    requires DistinctSources(job.allocations) && after == es + Postings(|es|, j, job, p, job.allocations)
    ensures BalancesMove(es, after, job, FlowOf(p))
  {
    forall a | a in job.allocations
      ensures Balance(after, job.owner, a.source) == Balance(es, job.owner, a.source) + Flowed(FlowOf(p), a.cents)
    {
      AllocationMoves(es, j, job, p, a);
    }
    forall owner, s | owner != job.owner || !HasSource(job.allocations, s)
      ensures Balance(after, owner, s) == Balance(es, owner, s)
    {
      OthersStay(es, j, job, p, owner, s);
    }
  }

  // ---------------------------------------------------------------- the law of settlement

  /** Nothing for an ended job or an unknown status; else exactly what the status says, for
      the job, for the entries of each allocation and for every balance. */
  ghost predicate SettledAs(b: Book, after: Book, j: nat, s: Status, at: nat)
    requires j < |b.jobs|
  {
    var was := b.jobs[j];
    if Ended(was) || s !in {Processing, Posted, Failed, Canceled, Returned} then after == b
    else
      && after.members == b.members && after.rows == b.rows && |after.jobs| == |b.jobs|
      && (forall k | 0 <= k < |b.jobs| && k != j :: after.jobs[k] == b.jobs[k])
      && Told(was, after.jobs[j], s, at)
      && (forall a | a in was.allocations :: Accounted(after.entries, j, a, after.jobs[j]))
      && BalancesMove(b.entries, after.entries, was, if Ends(s) then GivenBack else Kept)
      && AppendedFor(b.entries, after.entries, was)
      && (s == Processing || (s == Posted && was.paid) ==> after.entries == b.entries)
  }

  lemma {:induction false} SettledTells(b: Book, j: nat, s: Status, at: nat)
    requires Valid(b) && j < |b.jobs| && !Ended(b.jobs[j]) && s in {Processing, Posted, Failed, Canceled, Returned}
    ensures var r := SettleInState(b, j, s, at);
            && r.Settled? && |r.book.jobs| == |b.jobs| && Told(b.jobs[j], r.book.jobs[j], s, at)
            && r.book.members == b.members && r.book.rows == b.rows
            && (forall k | 0 <= k < |b.jobs| && k != j :: r.book.jobs[k] == b.jobs[k])
            && (r.changed <==> r.book.jobs[j] != b.jobs[j])
  {
    assert JobOk(b.jobs[j]);
    SettleKeepsValid(b, j, s, at);
  }

  lemma {:induction false} SettledAccounts(b: Book, j: nat, s: Status, at: nat, i: nat)
    requires Valid(b) && j < |b.jobs| && !Ended(b.jobs[j]) && s in {Processing, Posted, Failed, Canceled, Returned}
    requires i < |b.jobs[j].allocations|
    ensures var r := SettleInState(b, j, s, at);
            r.Settled? && j < |r.book.jobs| && Accounted(r.book.entries, j, b.jobs[j].allocations[i], r.book.jobs[j])
  {
    SettledTells(b, j, s, at);
    SettleKeepsValid(b, j, s, at);
    var after := SettleInState(b, j, s, at).book;
    JobClosedForm(after, j, i);
    var a := after.jobs[j].allocations[i];
    assert JobTagged(after.entries, after.jobs, j, a.source);
    assert JobOk(after.jobs[j]);
    MarksExactly(after.jobs[j].allocations, i, true);
  }

  /** The posting behind a status, and what it appends. */
  lemma {:induction false} SettledEntries(b: Book, j: nat, s: Status, at: nat) returns (p: Option<Posting>)
    requires Valid(b) && j < |b.jobs| && !Ended(b.jobs[j]) && s in {Processing, Posted, Failed, Canceled, Returned}
    ensures var r := SettleInState(b, j, s, at);
            var job := b.jobs[j];
            && r.Settled? && DistinctSources(job.allocations)
            && r.book.entries == b.entries + (if p.None? then [] else Postings(|b.entries|, j, job, p.value, job.allocations))
    ensures p.None? ==> !Ends(s)
    ensures p.Some? ==> FlowOf(p.value) == (if Ends(s) then GivenBack else Kept) && OriginalsOk(b.entries, b.jobs[j], p.value, b.jobs[j].allocations)
    ensures s == Processing || (s == Posted && b.jobs[j].paid) ==> p.None?
  {
    assert JobOk(b.jobs[j]);
    SettleKeepsValid(b, j, s, at);
    p := SettlePosting(b.entries, j, b.jobs[j], s);
    if p.Some? && p.value.Undo? {
      PaidHasOriginals(b, j);
    }
  }

  lemma {:induction false} SettledBalances(b: Book, j: nat, s: Status, at: nat)
    requires Valid(b) && j < |b.jobs| && !Ended(b.jobs[j]) && s in {Processing, Posted, Failed, Canceled, Returned}
    ensures var r := SettleInState(b, j, s, at);
            r.Settled? && BalancesMove(b.entries, r.book.entries, b.jobs[j], if Ends(s) then GivenBack else Kept)
            && AppendedFor(b.entries, r.book.entries, b.jobs[j])
            && (s == Processing || (s == Posted && b.jobs[j].paid) ==> r.book.entries == b.entries)
  {
    var job, es := b.jobs[j], b.entries;
    var p := SettledEntries(b, j, s, at);
    if p.None? {
      assert es + [] == es;
    } else {
      PostingFlows(es, es + Postings(|es|, j, job, p.value, job.allocations), j, job, p.value);
    }
  }

  lemma {:induction false} PostingFlows(es: seq<Entry>, after: seq<Entry>, j: nat, job: Job, p: Posting)
    requires DistinctSources(job.allocations) && OriginalsOk(es, job, p, job.allocations)
    requires after == es + Postings(|es|, j, job, p, job.allocations)
    ensures BalancesMove(es, after, job, FlowOf(p)) && AppendedFor(es, after, job)
  {
    PostingsMoveBalances(es, after, j, job, p);
    PostingsShape(es, j, job, p, job.allocations);
    PostedAppended(es, j, job, p);
  }

  lemma {:induction false} PostedAppended(es: seq<Entry>, j: nat, job: Job, p: Posting)
    requires PostedFrom(es + Postings(|es|, j, job, p, job.allocations), |es|, j, job)
    ensures AppendedFor(es, es + Postings(|es|, j, job, p, job.allocations), job)
  {
    var after := es + Postings(|es|, j, job, p, job.allocations);
    forall i | |es| <= i < |after|
      ensures after[i].owner == job.owner && after[i].period == job.cycle && after[i].byStripe
    {
      var k: nat := i;
      assert PostedOk(after, j, job, k);
    }
  }

  /** Settlement does exactly what the status says, and reports a change exactly when the
      job changed. */
  lemma {:induction false} SettlementExact(b: Book, j: nat, s: Status, at: nat)
    requires Valid(b) && j < |b.jobs|
    ensures var r := SettleInState(b, j, s, at);
            r.Settled? && SettledAs(b, r.book, j, s, at) && j < |r.book.jobs| && (r.changed <==> r.book.jobs[j] != b.jobs[j])
  {
    assert JobOk(b.jobs[j]);
    if !Ended(b.jobs[j]) && s in {Processing, Posted, Failed, Canceled, Returned} {
      SettledTells(b, j, s, at);
      SettledBalances(b, j, s, at);
      var after := SettleInState(b, j, s, at).book;
      forall a | a in b.jobs[j].allocations
        ensures Accounted(after.entries, j, a, after.jobs[j])
      {
        var i :| 0 <= i < |b.jobs[j].allocations| && b.jobs[j].allocations[i] == a;
        SettledAccounts(b, j, s, at, i);
      }
    }
  }
}
