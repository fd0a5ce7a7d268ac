/** What each step of the worker does, in terms of jobs, payments and answers alone. */
module HubEffects {
  import opened Basics
  import opened Ledger
  import opened Book
  import opened BookInvariants
  import opened Settlement
  import opened Admission
  import opened RowCredits
  import opened Hub
  import opened HubSafety
  import Reconcile

  // ---------------------------------------------------------------- what a step may say of a job

  function WithNote(b: Book, j: nat, at: nat, message: string): Book
    requires j < |b.jobs|
  {
    b.(jobs := b.jobs[j := b.jobs[j].(checked := at, error := Some(message))])
  }

  /** Job j, and nothing else in the book, is noted: checked at that time, with that error. */
  predicate NotedOnly(b: Book, after: Book, j: nat, at: nat, message: string) {
    j < |b.jobs| && after == WithNote(b, j, at, message)
  }

  lemma {:induction false} NotedExact(w: World, j: nat, snapshot: Job, at: nat, message: string)
    requires Sound(w) && j < |w.book.jobs| && SameIdentity(w.book.jobs[j], snapshot)
    ensures NotedOnly(w.book, NoteError(w.book, j, snapshot, at, message), j, at, message)
  {
    assert JobOk(w.book.jobs[j]);
  }

  lemma {:induction false} SettledExact(b: Book, j: nat, snapshot: Job, status: Status, at: nat)
    requires Valid(b) && j < |b.jobs| && SameIdentity(b.jobs[j], snapshot)
    ensures SettledAs(b, SettleBook(b, j, snapshot, status, at), j, status, at)
  {
    SettlementExact(b, j, status, at);
  }

  // ---------------------------------------------------------------- conflicts

  /** The identity of a job is everything but its progress. */
  lemma {:induction false} IdentityMeans(a: Job, b: Job)
    ensures SameIdentity(a, b) <==>
              b == a.(status := b.status, error := b.error, released := b.released, paid := b.paid, returned := b.returned,
                      checked := b.checked, conflict := b.conflict)
  {
  }

  /** Job j alone is handed over to review, with its money where it was. */
  predicate HandedOver(b: Book, after: Book, j: nat) {
    && j < |b.jobs| == |after.jobs| && after == b.(jobs := b.jobs[j := after.jobs[j]])
    && after.jobs[j] == b.jobs[j].(status := NeedsReview, conflict := true, error := after.jobs[j].error)
  }

  /** Whoever held the file meanwhile: a job whose identity is not that of the question is
      handed over by every transaction that compares them, and a payment that was made for it
      is kept if the job has none. */
  lemma {:induction false} ConflictExact(b: Book, j: nat, snapshot: Job, s: Status, at: nat, message: string,
                                         payment: nat)
    requires j < |b.jobs| && !SameIdentity(b.jobs[j], snapshot)
    ensures s in {Processing, Posted, Failed, Canceled, Returned} ==> HandedOver(b, SettleBook(b, j, snapshot, s, at), j)
    ensures !b.jobs[j].conflict ==> HandedOver(b, NoteError(b, j, snapshot, at, message), j)
    ensures HandedOver(b, CommitOne(b, Read(j, snapshot, Some(s)), at, message), j)
    ensures HandedOver(b, CommitOne(b, Read(j, snapshot, None), at, message), j)
    ensures var carried := b.(jobs := b.jobs[j := b.jobs[j].(stripeId := if b.jobs[j].stripeId.Some? then b.jobs[j].stripeId else Some(payment))]);
            HandedOver(carried, StoreAccepted(b, j, snapshot, payment), j)
  {
  }

  /** What was handed over is left alone: no attempt, no settlement and no recovery. */
  lemma {:induction false} ConflictStops(w: World, j: nat, s: Status, at: nat)
    requires j < |w.book.jobs| && w.book.jobs[j].conflict
    ensures SettleInState(w.book, j, s, at) == Settled(w.book, false)
    ensures Perform(w, Attempt(j)) == w
    ensures !Reconcile.Candidate(w.book.jobs[j], at) && !Reconcile.Recoverable(w.book.jobs[j])
  {
  }

  // ---------------------------------------------------------------- a missing payout entry

  lemma {:induction false} NoneUnder(es: seq<Entry>, r: Reference)
    ensures FindReference(es, r).None? <==> Cents(es, r) == []
  {
    if es != [] {
      NoneUnder(es[..|es| - 1], r);
    }
  }

  lemma {:induction false} OriginalsExact(es: seq<Entry>, j: nat, allocations: seq<Share>)
    ensures Originals(es, j, allocations).Some? <==> forall a | a in allocations :: Cents(es, PayoutOf(j, a.source)) != []
  {
    if allocations != [] {
      var n := |allocations| - 1;
      OriginalsExact(es, j, allocations[..n]);
      NoneUnder(es, PayoutOf(j, allocations[n].source));
      assert allocations == allocations[..n] + [allocations[n]];
    }
  }

  /** In any book, valid or not: settlement throws exactly when money that was paid comes back
      and one of its payout entries is missing; the throw is noted and no money moves. */
  lemma {:induction false} MissingExact(b: Book, j: nat, s: Status, at: nat)
    requires j < |b.jobs|
    ensures SettleInState(b, j, s, at).MissingOriginal? <==>
              && Ends(s) && b.jobs[j].paid && !b.jobs[j].conflict && !Ended(b.jobs[j])
              && exists a :: a in b.jobs[j].allocations && Cents(b.entries, PayoutOf(j, a.source)) == []
    ensures SettleInState(b, j, s, at).MissingOriginal? ==>
              NotedOnly(b, SettleOrNote(b, j, s, at), j, at, "payout ledger settlement needs review")
  {
    OriginalsExact(b.entries, j, b.jobs[j].allocations);
  }

  // ---------------------------------------------------------------- submitting

  /** An attempt for a job without a payment that is waiting: up to 23 hours after its creation
      one request for its amount and recipient goes out and the book stays as it is; later it
      is handed over to review. Any other job is left alone. */
  lemma {:induction false} AttemptExact(w: World, j: nat)
    requires Sound(w) && w.task.Idle? && j < |w.book.jobs| && j in w.known
    ensures var job := w.book.jobs[j];
            var after := Perform(w, Attempt(j));
            if job.stripeId.Some? || job.status != Submitting then after == w
            else if w.now > job.created + 23 * 3_600_000 then
              && after == w.(book := after.book) && after.book == w.book.(jobs := w.book.jobs[j := after.book.jobs[j]])
              && after.book.jobs[j] == job.(status := NeedsReview, error := after.book.jobs[j].error)
            else
              && after == w.(attempts := w.attempts + [j], provider := after.provider, task := after.task)
              && after.provider == w.provider.(network := w.provider.network + {Request(|w.attempts|, job.amount, job.recipient, w.now)})
              && after.task == Posting(|w.attempts|, w.known[j]) && SameIdentity(job, w.known[j])
  {
    assert JobOk(w.book.jobs[j]) && JobSafe(w, j);
    assert Perform(w, Attempt(j)) == BeginAttempt(w, j);
    if w.book.jobs[j].stripeId.None? {
      AttemptIdentity(w, j);
    }
  }

  /** A payment was made: the job carries it and nothing else changes in the book; the worker
      goes on to read its status. */
  lemma {:induction false} AcceptedExact(w: World, payment: nat)
    requires Sound(w) && w.task.Posting? && w.task.attempt in w.provider.answers
    requires w.provider.answers[w.task.attempt] == Created(payment)
    ensures var j := w.attempts[w.task.attempt];
            var after := Perform(w, TakeAnswer);
            j < |w.book.jobs| && after.book == w.book.(jobs := w.book.jobs[j := w.book.jobs[j].(stripeId := Some(payment))])
            && after.task == Confirming(j, w.task.snapshot.(stripeId := Some(payment)))
            && after == w.(book := after.book, task := after.task, known := w.known[j := w.task.snapshot.(stripeId := Some(payment))])
  {
    assert Perform(w, TakeAnswer) == TakeAnswerOf(w);
  }

  predicate NoPaymentCode(code: nat) { code == 400 || code == 402 || code == 403 || code == 404 || code == 422 }

  lemma {:induction false} DeclinedInSteps(w: World, code: nat)
    requires Sound(w) && w.task.Posting? && w.task.attempt in w.provider.answers
    requires w.provider.answers[w.task.attempt] == Declined(code)
    ensures var j := w.attempts[w.task.attempt];
            var noted := WithNote(w.book, j, w.now, "request declined");
            && Sound(w.(book := noted, task := Idle))
            && Perform(w, TakeAnswer) ==
                 w.(book := if NoPaymentCode(code) then SettleBook(noted, j, w.task.snapshot, Failed, w.now) else noted, task := Idle)
  {
    var j := w.attempts[w.task.attempt];
    var idle := w.(task := Idle);
    Reframe(w, idle);
    NoteErrorSound(idle, j, w.task.snapshot, w.now, "request declined");
    assert Perform(w, TakeAnswer) == TakeAnswerOf(w);
  }

  /** A refusal is noted on the job. If its code says that no payment was or will be made, the
      job has also failed and the owner has the money back; else nothing more happens. */
  lemma {:induction false} DeclinedExact(w: World, code: nat)
    requires Sound(w) && w.task.Posting? && w.task.attempt in w.provider.answers
    requires w.provider.answers[w.task.attempt] == Declined(code)
    ensures var j := w.attempts[w.task.attempt];
            var after := Perform(w, TakeAnswer);
            var noted := WithNote(w.book, j, w.now, "request declined");
            && after == w.(book := after.book, task := Idle)
            && if NoPaymentCode(code) then SettledAs(noted, after.book, j, Failed, w.now) else after.book == noted
  {
    DeclinedInSteps(w, code);
    if NoPaymentCode(code) {
      var j := w.attempts[w.task.attempt];
      SettledExact(WithNote(w.book, j, w.now, "request declined"), j, w.task.snapshot, Failed, w.now);
    }
  }

  // ---------------------------------------------------------------- confirming

  /** The status of a payment is brought home as it is. */
  lemma {:induction false} StatusHome(w: World, j: nat, snapshot: Job)
    requires Sound(w) && j < |w.book.jobs| && SameIdentity(w.book.jobs[j], snapshot) && snapshot.stripeId.Some?
    ensures snapshot.stripeId.value < |w.provider.payments|
    ensures StatusOf(w, snapshot) == Some(w.provider.payments[snapshot.stripeId.value].status)
  {
    assert JobSafe(w, j);
    assert PaymentSafe(w, snapshot.stripeId.value);
  }

  /** A confirmation settles the job with the very status of its payment. */
  lemma {:induction false} ConfirmExact(w: World)
    requires Sound(w) && w.task.Confirming?
    ensures var j, id := w.task.job, w.task.snapshot.stripeId;
            var after := Perform(w, Confirm);
            j < |w.book.jobs| && id.Some? && id.value < |w.provider.payments|
            && after == w.(book := after.book, task := Idle)
            && SettledAs(w.book, after.book, j, w.provider.payments[id.value].status, w.now)
  {
    var j, snapshot := w.task.job, w.task.snapshot;
    StatusHome(w, j, snapshot);
    assert PaymentSafe(w, snapshot.stripeId.value);
    assert Perform(w, Confirm) == ConfirmOf(w);
    SettledExact(w.book, j, snapshot, w.provider.payments[snapshot.stripeId.value].status, w.now);
  }

  /** In any world, sound or not: an answer for another amount or recipient settles nothing. It
      is noted on the job, or collected as a failed read. */
  lemma {:induction false} MismatchExact(w: World, j: nat, asked: Job)
    requires j < |w.book.jobs| && SameIdentity(w.book.jobs[j], asked) && !w.book.jobs[j].conflict
    requires asked.stripeId.Some? && asked.stripeId.value < |w.provider.payments|
    requires var p := w.provider.payments[asked.stripeId.value]; p.amount != asked.amount || p.recipient != asked.recipient
    ensures w.task == Confirming(j, asked) ==>
              var after := Perform(w, Confirm);
              after == w.(book := after.book, task := Idle) && NotedOnly(w.book, after.book, j, w.now, "payout identity mismatch")
    ensures w.task.Reading? && j in w.known && w.known[j] == asked ==>
              Perform(w, ReadStatus(j)) == w.(task := Reading(w.task.found + [Read(j, asked, None)]))
  {
    assert StatusOf(w, asked) == None;
    if w.task == Confirming(j, asked) {
      assert Perform(w, Confirm) == ConfirmOf(w);
    }
  }

  /** So for a job that has not ended: it takes the payment's status; it becomes paid exactly
      when that is posted, with one payout entry for each allocation; and while the payment is
      in flight the ledger stays as it is. */
  lemma {:induction false} ConfirmTells(w: World)
    requires Sound(w) && w.task.Confirming? && !Ended(w.book.jobs[w.task.job])
    ensures w.task.snapshot.stripeId.Some? && w.task.snapshot.stripeId.value < |w.provider.payments|
    ensures var j, p := w.task.job, w.provider.payments[w.task.snapshot.stripeId.value];
            var after := Perform(w, Confirm).book;
            && j < |after.jobs| && after.jobs[j].status == p.status && after.jobs[j].checked == w.now
            && (after.jobs[j].paid <==> w.book.jobs[j].paid || p.status == Posted)
            && (after.jobs[j].paid ==>
                  forall a | a in after.jobs[j].allocations :: Cents(after.entries, PayoutOf(j, a.source)) == [-a.cents])
            && (p.status == Processing ==> after.entries == w.book.entries)
  {
    ConfirmExact(w);
    assert PaymentSafe(w, w.task.snapshot.stripeId.value);
  }

  /** An await that fails is noted on the job; money and status stay. */
  lemma {:induction false} GiveUpExact(w: World, message: string)
    requires Sound(w) && (w.task.Posting? || w.task.Confirming?)
    ensures var j := if w.task.Posting? then w.attempts[w.task.attempt] else w.task.job;
            var after := Perform(w, GiveUp(message));
            after == w.(book := after.book, task := Idle) && NotedOnly(w.book, after.book, j, w.now, message)
  {
    var j := if w.task.Posting? then w.attempts[w.task.attempt] else w.task.job;
    NotedExact(w, j, w.task.snapshot, w.now, message);
  }

  // ---------------------------------------------------------------- reading and committing

  /** The worker loads every job as the book has it. */
  lemma {:induction false} LoadExact(w: World)
    requires w.task.Idle?
    ensures var after := Perform(w, LoadJobs);
            after == w.(known := after.known) && forall j: nat :: (j in after.known <==> j < |w.book.jobs|)
                                                    && (j in after.known ==> after.known[j] == w.book.jobs[j])
  {
  }

  /** A read adds the job as the worker knows it with the status its payment has. */
  lemma {:induction false} ReadExact(w: World, j: nat)
    requires Sound(w) && w.task.Reading? && j in w.known && w.known[j].stripeId.Some?
    ensures w.known[j].stripeId.value < |w.provider.payments|
    ensures Perform(w, ReadStatus(j)) ==
              w.(task := Reading(w.task.found + [Read(j, w.known[j], Some(w.provider.payments[w.known[j].stripeId.value].status))]))
    ensures Perform(w, FailToRead(j)) == w.(task := Reading(w.task.found + [Read(j, w.known[j], None)]))
  {
    assert KnownSafe(w, j);
    StatusHome(w, j, w.known[j]);
    assert Perform(w, ReadStatus(j)) == w.(task := Reading(w.task.found + [Read(j, w.known[j], StatusOf(w, w.known[j]))]));
  }

  /** What one outcome does. */
  ghost predicate CommittedAs(b: Book, after: Book, r: Read, at: nat, message: string) {
    r.job < |b.jobs| && if r.status.None? then NotedOnly(b, after, r.job, at, message)
                        else SettledAs(b, after, r.job, r.status.value, at)
  }

  lemma {:induction false} CommittedExact(b: Book, r: Read, at: nat, message: string)
    requires Valid(b) && r.job < |b.jobs| && SameIdentity(b.jobs[r.job], r.asked)
    ensures CommittedAs(b, CommitOne(b, r, at, message), r, at, message)
  {
    if r.status.Some? {
      SettlementExact(b, r.job, r.status.value, at);
    }
  }

  /** The books between the outcomes of one commit. */
  ghost predicate CommitsThrough(bs: seq<Book>, found: seq<Read>, at: nat, message: string) {
    |bs| == |found| + 1 && forall k | 0 <= k < |found| :: CommittedAs(bs[k], bs[k + 1], found[k], at, message)
  }

  lemma {:induction false} CommitStep(w: World, found: seq<Read>, k: nat, at: nat, message: string)
    requires Sound(w) && !w.task.Posting? && Asked(w.book.jobs, found) && k < |found|
    ensures CommittedAs(CommitAll(w.book, found[..k], at, message), CommitAll(w.book, found[..k + 1], at, message), found[k], at, message)
  {
    assert found[..k + 1][..k] == found[..k] && found[k] in found && forall q :: q in found[..k] ==> q in found;
    CommitAllSound(w, found[..k], at, message);
    CommittedExact(CommitAll(w.book, found[..k], at, message), found[k], at, message);
  }

  lemma {:induction false} CommitBooks(w: World, found: seq<Read>, at: nat, message: string) returns (bs: seq<Book>)
    requires Sound(w) && !w.task.Posting? && Asked(w.book.jobs, found)
    ensures CommitsThrough(bs, found, at, message)
    ensures bs[0] == w.book && bs[|found|] == CommitAll(w.book, found, at, message)
  {
    bs := seq(|found| + 1, k requires 0 <= k <= |found| => CommitAll(w.book, found[..k], at, message));
    forall k | 0 <= k < |found|
      ensures CommittedAs(bs[k], bs[k + 1], found[k], at, message)
    {
      CommitStep(w, found, k, at, message);
    }
    assert found[..|found|] == found;
  }

  lemma {:induction false} CommitInOneStep(w: World, at: nat, message: string)
    requires w.task.Reading? && at <= w.now
    ensures Perform(w, CommitReads(at, message)) == w.(book := CommitAll(w.book, w.task.found, at, message), task := Idle)
  {
  }

  /** A commit handles the collected outcomes one after the other, each by noting the failure
      or settling the status that was read. */
  lemma {:induction false} CommitExact(w: World, at: nat, message: string) returns (bs: seq<Book>)
    requires Sound(w) && w.task.Reading? && at <= w.now
    ensures CommitsThrough(bs, w.task.found, at, message) && bs[0] == w.book
    ensures Perform(w, CommitReads(at, message)) == w.(book := bs[|w.task.found|], task := Idle)
  {
    AskedOfReads(w);
    CommitInOneStep(w, at, message);
    bs := CommitBooks(w.(task := Idle), w.task.found, at, message);
  }

  lemma {:induction false} AskedOfReads(w: World)
    requires Sound(w) && w.task.Reading?
    ensures Sound(w.(task := Idle)) && Asked(w.book.jobs, w.task.found)
  {
    Reframe(w, w.(task := Idle));
    forall r | r in w.task.found
      ensures r.job < |w.book.jobs| && SameIdentity(w.book.jobs[r.job], r.asked)
    {
      assert ReadSafe(w, r);
    }
  }

  // ---------------------------------------------------------------- admission and rows

  lemma {:induction false} AdmitExact(w: World, owner: string, cycle: nat, recipient: string, account: string)
    requires Sound(w) && w.task.Idle?
    ensures var after := Perform(w, Admit(owner, cycle, recipient, account));
            var n := |w.book.jobs|;
            && AdmittedAs(w.book, after.book, owner, cycle, recipient, account, w.now)
            && after == w.(book := after.book, known := after.known)
            && after.known == if |after.book.jobs| > n then w.known[n := after.book.jobs[n]] else w.known
  {
    AdmissionExact(w.book, owner, cycle, recipient, account, w.now);
  }

  /** A purchase is admitted once, with what was collected, its basis and its rate. */
  lemma {:induction false} PurchaseExact(w: World, id: string, owner: string, p: Purchase, own: Option<nat>,
                                         active: nat, period: nat)
    requires w.task.Idle? && Admissible(p) && AdmissionRate(own, active) <= 100
    ensures var after := Perform(w, AdmitPurchase(id, owner, p, own, active, period));
            && after == w.(book := after.book)
            && (id in w.book.rows ==> after == w)
            && (id !in w.book.rows ==>
                  && id in after.book.rows && after.book.rows == w.book.rows[id := after.book.rows[id]] && after.book.jobs == w.book.jobs
                  && var row := after.book.rows[id];
                     && row.owner == owner && row.paid == (if p.Checkout? then p.total else p.paid) && row.basis == Basis(p)
                     && row.rate == AdmissionRate(own, active) && row.period == period
                     && Credits(w.book.entries, after.book.entries, row, row.commission, Earning,
                                if p.Checkout? then CheckoutOf(id) else InvoiceOf(id)))
  {
    AdmissionCredits(w.book, id, p.Checkout?, owner, PaidAmount(p), Basis(p), AdmissionRate(own, active), period);
  }

  /** The refund facts reach the row that was asked about, and its owner. */
  lemma {:induction false} RefundsExact(w: World, id: string, refunded: nat, disputed: bool)
    requires Sound(w) && w.task.Idle? && id in w.book.rows
    ensures var asking := Perform(w, AskRefunds(id));
            var after := Perform(asking, AdjustRefunds(refunded, disputed));
            var row := w.book.rows[id];
            && asking.book == w.book && after == w.(book := after.book) && row.paid > 0
            && after.book.rows == w.book.rows[id := row.(refunded := refunded, disputed := disputed)] && after.book.jobs == w.book.jobs
            && Credits(w.book.entries, after.book.entries, row, Net(after.book.rows[id]) - Net(row), Adjustment, AdjustOf(id))
  {
    RowFacts(w.book, id);
    var row := w.book.rows[id];
    assert Perform(Perform(w, AskRefunds(id)), AdjustRefunds(refunded, disputed))
        == w.(book := AdjustRow(w.book, id, row.commission, row.paid, refunded, disputed));
    AdjustmentCredits(w.book, id, row.commission, row.paid, refunded, disputed);
  }
}
