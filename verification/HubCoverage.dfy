/** Money is given back only for payments that are gone, as long as no step is reckless. */
module HubCoverage {
  import opened Basics
  import opened Ledger
  import opened Book
  import opened BookInvariants
  import opened Payouts
  import opened Hub
  import opened HubSafety

  // ---------------------------------------------------------------- what stays gone

  /** The provider's side is the same, or later. */
  predicate SideKept(w: World, after: World) {
    after.provider == w.provider && after.attempts == w.attempts && w.now <= after.now
  }

  lemma {:induction false} GoneKept(w: World, after: World, j: nat)
    requires SideKept(w, after) && Gone(w, j)
    ensures Gone(after, j)
  {
    if j !in w.provider.keys {
      forall r | r in after.provider.network && Underway(after, r)
        ensures after.attempts[r.attempt] != j
      {
        assert Underway(w, r);
      }
    }
  }

  /** A step that keeps the provider's side and uncovers only jobs that are gone. */
  lemma {:induction false} CoveredBySide(w: World, after: World)
    requires AllCovered(w) && SideKept(w, after)
    requires forall j: nat | j < |after.book.jobs| && !Covered(after.book.jobs[j]) ::
               (j < |w.book.jobs| && !Covered(w.book.jobs[j])) || Gone(w, j)
    ensures AllCovered(after)
  {
    forall j: nat | j < |after.book.jobs| && !Covered(after.book.jobs[j])
      ensures Gone(after, j)
    {
      GoneKept(w, after, j);
    }
  }

  /** A request that may still be handled belongs to a covered job, or to a recorded key. */
  lemma {:induction false} UnderwayCovered(w: World, r: Request)
    requires AllCovered(w) && Linked(w) && Underway(w, r)
    ensures var j := w.attempts[r.attempt]; j < |w.book.jobs| && (j in w.provider.keys || Covered(w.book.jobs[j]))
  {
    assert RequestSafe(w, r);
  }

  lemma {:induction false} ProcessCovered(w: World, r: Request, accept: bool, code: nat)
    requires Linked(w) && AllCovered(w) && Underway(w, r)
    ensures AllCovered(w.(provider := ProcessRequest(w, r, accept, code)))
  {
    var after := w.(provider := ProcessRequest(w, r, accept, code));
    InsideReplayWindow(w, r);
    UnderwayCovered(w, r);
    forall j: nat | j < |w.book.jobs| && !Covered(w.book.jobs[j])
      ensures Gone(after, j)
    {
      assert Gone(w, j);
      GoneHandled(w, r, accept, code, j);
    }
  }

  /** Handling one job's request leaves another job's payment gone. */
  lemma {:induction false} GoneHandled(w: World, r: Request, accept: bool, code: nat, j: nat)
    requires Underway(w, r) && Gone(w, j)
    requires w.attempts[r.attempt] != j || (j in w.provider.keys && w.now < w.provider.keys[j].first + REPLAY)
    ensures Gone(w.(provider := ProcessRequest(w, r, accept, code)), j)
  {
    var after := w.(provider := ProcessRequest(w, r, accept, code));
    forall o | o in after.provider.network && Underway(after, o)
      ensures Underway(w, o)
    {
    }
  }

  lemma {:induction false} RefuseCovered(w: World, r: Request, code: nat)
    requires AllCovered(w)
    ensures AllCovered(w.(provider := RefuseRequest(w.provider, r, code)))
  {
    var after := w.(provider := RefuseRequest(w.provider, r, code));
    forall j: nat | j < |w.book.jobs| && !Covered(w.book.jobs[j])
      ensures Gone(after, j)
    {
      assert Gone(w, j);
      forall o | o in after.provider.network && Underway(after, o)
        ensures Underway(w, o)
      {
      }
    }
  }

  lemma {:induction false} ProgressCovered(w: World, p: nat, status: Status)
    requires AllCovered(w) && p < |w.provider.payments| && Live(w.provider.payments[p])
    ensures AllCovered(Progressed(w, p, status))
  {
    var after := Progressed(w, p, status);
    forall j: nat | j < |w.book.jobs| && !Covered(w.book.jobs[j])
      ensures Gone(after, j)
    {
      assert Gone(w, j);
      forall o | o in after.provider.network && Underway(after, o)
        ensures Underway(w, o)
      {
      }
    }
  }

  /** A request is only sent for a covered job. */
  lemma {:induction false} SentCovered(w: World, j: nat, job: Job)
    requires Linked(w) && AllCovered(w) && j < |w.book.jobs| && Covered(w.book.jobs[j])
    ensures AllCovered(Sent(w, j, job))
  {
    var after := Sent(w, j, job);
    forall k: nat | k < |w.book.jobs| && !Covered(w.book.jobs[k])
      ensures Gone(after, k)
    {
      assert Gone(w, k);
      forall o | o in after.provider.network && Underway(after, o)
        ensures after.attempts[o.attempt] == j || (Underway(w, o) && after.attempts[o.attempt] == w.attempts[o.attempt])
      {
        if o in w.provider.network {
          assert RequestSafe(w, o);
        }
      }
    }
  }

  // ---------------------------------------------------------------- what uncovers

  /** A known payment that is not live is gone. */
  lemma {:induction false} EndedIsGone(w: World, j: nat, p: nat)
    requires Linked(w) && j < |w.book.jobs| && w.book.jobs[j].stripeId == Some(p)
    requires p < |w.provider.payments| && !Live(w.provider.payments[p])
    ensures Gone(w, j)
  {
    assert JobSafe(w, j) && PaymentSafe(w, p);
  }

  lemma {:induction false} SettleUncovers(w: World, j: nat, status: Status, at: nat)
    requires Sound(w) && j < |w.book.jobs| && (Closing(status) ==> Gone(w, j))
    ensures var after := SettleOrNote(w.book, j, status, at);
            && |after.jobs| == |w.book.jobs|
            && forall k: nat | k < |after.jobs| && !Covered(after.jobs[k]) :: !Covered(w.book.jobs[k]) || Gone(w, k)
  {
    SettleKeepsValid(w.book, j, status, at);
    assert JobOk(w.book.jobs[j]);
    SettleEffect(w.book, j, status, at);
  }

  /** Whatever a transaction over collected outcomes uncovers is gone. */
  lemma {:induction false} CommitUncovers(w: World, found: seq<Read>, at: nat, message: string)
    requires Sound(w) && w.task.Idle? && forall r | r in found :: ReadSafe(w, r)
    ensures var after := CommitAll(w.book, found, at, message);
            && |after.jobs| == |w.book.jobs|
            && forall k: nat | k < |after.jobs| && !Covered(after.jobs[k]) :: !Covered(w.book.jobs[k]) || Gone(w, k)
  {
    if found != [] {
      var n := |found| - 1;
      assert found[n] in found && forall r :: r in found[..n] ==> r in found;
      CommitUncovers(w, found[..n], at, message);
      forall r | r in found[..n]
        ensures r.job < |w.book.jobs| && SameIdentity(w.book.jobs[r.job], r.asked)
      {
        assert ReadSafe(w, r);
      }
      CommitAllSound(w, found[..n], at, message);
      OutcomeUncovers(w, CommitAll(w.book, found[..n], at, message), found[n], at, message);
    }
  }

  lemma {:induction false} OutcomeUncovers(w: World, b: Book, r: Read, at: nat, message: string)
    requires Sound(w) && Sound(w.(book := b)) && SameJobs(w.book.jobs, b.jobs) && ReadSafe(w, r)
    ensures var after := CommitOne(b, r, at, message);
            && |after.jobs| == |b.jobs|
            && forall k: nat | k < |after.jobs| && !Covered(after.jobs[k]) :: !Covered(b.jobs[k]) || Gone(w, k)
  {
    var middle := w.(book := b);
    if r.status.Some? {
      if Closing(r.status.value) {
        EndedIsGone(w, r.job, r.asked.stripeId.value);
        GoneKept(w, middle, r.job);
      }
      SettleUncovers(middle, r.job, r.status.value, at);
      forall k: nat | Gone(middle, k)
        ensures Gone(w, k)
      {
        GoneKept(middle, w, k);
      }
    }
  }

  /** Settling a job as failed uncovers that job only. */
  lemma {:induction false} FailureUncovers(w: World, j: nat, expected: Job, at: nat)
    requires Sound(w) && !w.task.Posting? && j < |w.book.jobs| && SameIdentity(w.book.jobs[j], expected) && Gone(w, j)
    ensures var after := SettleBook(NoteError(w.book, j, expected, at, "request declined"), j, expected, Failed, at);
            && |after.jobs| == |w.book.jobs|
            && forall k: nat | k < |after.jobs| && !Covered(after.jobs[k]) :: !Covered(w.book.jobs[k]) || Gone(w, k)
  {
    NoteErrorSound(w, j, expected, at, "request declined");
    var noted := w.(book := NoteError(w.book, j, expected, at, "request declined"));
    GoneKept(w, noted, j);
    SettleUncovers(noted, j, Failed, at);
    forall k: nat | Gone(noted, k)
      ensures Gone(w, k)
    {
      GoneKept(noted, w, k);
    }
  }

  ghost predicate SameCover(b: Book, after: Book) {
    |after.jobs| == |b.jobs| && forall k | 0 <= k < |b.jobs| :: Covered(after.jobs[k]) == Covered(b.jobs[k])
  }

  lemma {:induction false} StoredMildly(b: Book, j: nat, snapshot: Job, payment: nat)
    requires j < |b.jobs|
    ensures SameCover(b, StoreAccepted(b, j, snapshot, payment))
  {
  }

  lemma {:induction false} NotedMildly(b: Book, j: nat, expected: Job, at: nat, message: string)
    requires j < |b.jobs|
    ensures SameCover(b, NoteError(b, j, expected, at, message))
  {
  }

  /** An answer that is not definitive gives nothing back. */
  lemma {:induction false} MildAnswer(w: World)
    requires w.task.Posting? && w.task.attempt < |w.attempts| && w.task.attempt in w.provider.answers
    requires w.attempts[w.task.attempt] < |w.book.jobs|
    requires var answer := w.provider.answers[w.task.attempt]; answer.Created? || answer.code !in DEFINITIVE
    ensures SameCover(w.book, TakeAnswerOf(w).book)
  {
    var j, job := w.attempts[w.task.attempt], w.task.snapshot;
    var answer := w.provider.answers[w.task.attempt];
    if answer.Created? {
      StoredMildly(w.book, j, job, answer.payment);
    } else {
      NotedMildly(w.book, j, job, w.now, "request declined");
    }
  }

  lemma {:induction false} DefinitiveCovered(w: World)
    requires Sound(w) && AllCovered(w) && w.task.Posting? && w.task.attempt < |w.attempts|
    requires w.task.attempt in w.provider.answers && Gone(w, w.attempts[w.task.attempt])
    requires var answer := w.provider.answers[w.task.attempt]; answer.Declined? && answer.code in DEFINITIVE
    ensures AllCovered(TakeAnswerOf(w))
  {
    var idle := w.(task := Idle);
    Reframe(w, idle);
    GoneKept(w, idle, w.attempts[w.task.attempt]);
    FailureUncovers(idle, w.attempts[w.task.attempt], w.task.snapshot, w.now);
    CoveredBySide(w, idle);
    CoveredBySide(idle, TakeAnswerOf(w));
  }

  lemma {:induction false} TakeAnswerCovered(w: World)
    requires Sound(w) && AllCovered(w) && !Reckless(w, TakeAnswer)
    ensures AllCovered(Perform(w, TakeAnswer))
  {
    if w.task.Posting? && w.task.attempt in w.provider.answers {
      var answer := w.provider.answers[w.task.attempt];
      if answer.Declined? && answer.code in DEFINITIVE {
        DefinitiveGone(w);
        DefinitiveCovered(w);
      } else {
        MildAnswer(w);
        CoveredBySide(w, Perform(w, TakeAnswer));
      }
    }
  }

  lemma {:induction false} DefinitiveGone(w: World)
    requires Linked(w) && !Reckless(w, TakeAnswer)
    requires w.task.Posting? && w.task.attempt < |w.attempts| && w.task.attempt in w.provider.answers
    requires var answer := w.provider.answers[w.task.attempt]; answer.Declined? && answer.code in DEFINITIVE
    ensures Gone(w, w.attempts[w.task.attempt])
  {
    assert AnswerSafe(w, w.task.attempt);
  }

  lemma {:induction false} ConfirmCovered(w: World)
    requires Sound(w) && AllCovered(w)
    ensures AllCovered(Perform(w, Confirm))
  {
    if w.task.Confirming? {
      var j, job := w.task.job, w.task.snapshot;
      var status := StatusOf(w, job);
      if status.Some? {
        assert JobSafe(w, j) && PaymentSafe(w, job.stripeId.value);
        if Closing(status.value) {
          EndedIsGone(w, j, job.stripeId.value);
        }
        SettleUncovers(w, j, status.value, w.now);
      }
      CoveredBySide(w, Perform(w, Confirm));
    }
  }

  lemma {:induction false} CommitReadsCovered(w: World, at: nat, message: string)
    requires Sound(w) && AllCovered(w)
    ensures AllCovered(Perform(w, CommitReads(at, message)))
  {
    if w.task.Reading? && at <= w.now {
      var idle := w.(task := Idle);
      Reframe(w, idle);
      forall r | r in w.task.found ensures ReadSafe(idle, r) { assert ReadSafe(w, r); }
      CommitUncovers(idle, w.task.found, at, message);
      forall k: nat | Gone(idle, k)
        ensures Gone(w, k)
      {
        GoneKept(idle, w, k);
      }
      CoveredBySide(w, Perform(w, CommitReads(at, message)));
    }
  }

  /** An attempt that sends nothing gives nothing back. */
  lemma {:induction false} NothingSent(w: World, j: nat)
    requires j < |w.book.jobs| && j in w.known && !BeginAttempt(w, j).task.Posting? && w.task.Idle?
    ensures var after := BeginAttempt(w, j);
            && SideKept(w, after) && |after.book.jobs| == |w.book.jobs|
            && forall k | 0 <= k < |w.book.jobs| :: Covered(after.book.jobs[k]) == Covered(w.book.jobs[k])
  {
  }

  lemma {:induction false} AttemptCovered(w: World, j: nat)
    requires Sound(w) && AllCovered(w)
    ensures AllCovered(Perform(w, Attempt(j)))
  {
    if w.task.Idle? && j < |w.book.jobs| && j in w.known {
      if BeginAttempt(w, j).task.Posting? {
        assert JobOk(w.book.jobs[j]);
        SentCovered(w, j, w.known[j]);
        CoveredBySide(Sent(w, j, w.known[j]), BeginAttempt(w, j));
      } else {
        NothingSent(w, j);
        CoveredBySide(w, BeginAttempt(w, j));
      }
    }
  }

  lemma {:induction false} AdmitCovered(w: World, owner: string, cycle: nat, recipient: string, account: string)
    requires Sound(w) && AllCovered(w)
    ensures AllCovered(Perform(w, Admit(owner, cycle, recipient, account)))
  {
    if w.task.Idle? {
      var after := Perform(w, Admit(owner, cycle, recipient, account));
      AdmissionJobs(w.book, owner, cycle, recipient, account, w.now);
      assert after.book == w.book || forall j | 0 <= j < |w.book.jobs| :: after.book.jobs[..|w.book.jobs|][j] == after.book.jobs[j];
      CoveredBySide(w, after);
    }
  }

  lemma {:induction false} ProviderStepCovered(w: World, a: Action)
    requires Sound(w) && AllCovered(w) && OfProvider(a)
    ensures AllCovered(Perform(w, a))
  {
    match a
    case Tick(ms) => CoveredBySide(w, Perform(w, a));
    case Process(r, accept, code) =>
      if Underway(w, r) {
        ProcessCovered(w, r, accept, code);
      }
    case Refuse(r, code) => RefuseCovered(w, r, code);
    case Progress(p, status) =>
      if p < |w.provider.payments| && Live(w.provider.payments[p]) && Recognised(status) {
        ProgressCovered(w, p, status);
      }
    case Crash => CoveredBySide(w, Perform(w, a));
  }

  lemma {:induction false} PayoutStepCovered(w: World, a: Action)
    requires Sound(w) && AllCovered(w) && !Reckless(w, a) && !OfProvider(a) && !OfOperator(a) && !OfRows(a)
    ensures AllCovered(Perform(w, a))
  {
    match a
    case Admit(owner, cycle, recipient, account) => AdmitCovered(w, owner, cycle, recipient, account);
    case Attempt(j) => AttemptCovered(w, j);
    case TakeAnswer => TakeAnswerCovered(w);
    case Confirm => ConfirmCovered(w);
    case CommitReads(at, message) => CommitReadsCovered(w, at, message);
    case GiveUp(message) => GiveUpCovered(w, message);
    case _ => QuietStepCovered(w, a);
  }

  /** A note changes no flag. */
  lemma {:induction false} NoteCovers(b: Book, j: nat, expected: Job, at: nat, message: string)
    requires j < |b.jobs|
    ensures var after := NoteError(b, j, expected, at, message);
            |after.jobs| == |b.jobs| && forall k | 0 <= k < |b.jobs| :: Covered(after.jobs[k]) == Covered(b.jobs[k])
  {
  }

  lemma {:induction false} GiveUpCovered(w: World, message: string)
    requires Sound(w) && AllCovered(w)
    ensures AllCovered(Perform(w, GiveUp(message)))
  {
    if w.task.Posting? || w.task.Confirming? {
      var j := if w.task.Posting? then w.attempts[w.task.attempt] else w.task.job;
      var book := NoteError(w.book, j, w.task.snapshot, w.now, message);
      assert Perform(w, GiveUp(message)) == w.(book := book, task := Idle);
      NoteCovers(w.book, j, w.task.snapshot, w.now, message);
      CoveredBySide(w, w.(book := book, task := Idle));
    }
  }

  lemma {:induction false} QuietStepCovered(w: World, a: Action)
    requires Sound(w) && AllCovered(w)
    requires a.LoadJobs? || a.BeginReading? || a.ReadStatus? || a.FailToRead?
    ensures AllCovered(Perform(w, a))
  {
    CoveredBySide(w, Perform(w, a));
  }

  lemma {:induction false} LedgerStepCovered(w: World, a: Action)
    requires Sound(w) && AllCovered(w) && (OfOperator(a) || OfRows(a))
    ensures AllCovered(Perform(w, a))
  {
    if OfOperator(a) {
      OperatorLedger(w, a);
    } else if !a.AskRefunds? {
      RowLedger(w, a);
    }
    CoveredBySide(w, Perform(w, a));
  }

  /** Every action that is not reckless leaves money given back only for payments that are gone. */
  lemma {:induction false} StepSafe(w: World, a: Action)
    requires Safe(w) && !Reckless(w, a)
    ensures Safe(Perform(w, a))
  {
    StepSound(w, a);
    if OfProvider(a) {
      ProviderStepCovered(w, a);
    } else if OfOperator(a) || OfRows(a) {
      LedgerStepCovered(w, a);
    } else {
      PayoutStepCovered(w, a);
    }
  }

  // ---------------------------------------------------------------- runs

  lemma {:induction false} RunSafeFrom(w: World, actions: seq<Action>)
    requires Safe(w) && Careful(w, actions)
    ensures Safe(Run(w, actions))
  {
    if actions != [] {
      RunSafeFrom(w, actions[..|actions| - 1]);
      StepSafe(Run(w, actions[..|actions| - 1]), actions[|actions| - 1]);
    }
  }

  /** Every state that a careful run reaches is safe. */
  lemma {:induction false} RunSafe(now: nat, actions: seq<Action>)
    requires Careful(Start(now), actions)
    ensures Safe(Run(Start(now), actions))
  {
    StartSound(now);
    RunSafeFrom(Start(now), actions);
  }

  /** Only an unrecorded refusal is unrecorded. */
  lemma {:induction false} StepRecords(w: World, a: Action)
    requires !a.Refuse? && w.provider.unrecorded == {}
    ensures Perform(w, a).provider.unrecorded == {}
  {
    if OfProvider(a) || a.Attempt? || a.TakeAnswer? || a.Confirm? {
    } else {
      assert Perform(w, a).provider == w.provider;
    }
  }

  /** With a provider whose refusals are all recorded under their keys, every run is careful. */
  lemma {:induction false} RecordingIsCareful(now: nat, actions: seq<Action>)
    requires forall i | 0 <= i < |actions| :: !actions[i].Refuse?
    ensures Careful(Start(now), actions) && Run(Start(now), actions).provider.unrecorded == {}
  {
    if actions != [] {
      var n := |actions| - 1;
      RecordingIsCareful(now, actions[..n]);
      StepRecords(Run(Start(now), actions[..n]), actions[n]);
      assert !Reckless(Run(Start(now), actions[..n]), actions[n]);
    }
  }

  /** In every careful run each payment that has not failed, been canceled or been returned is
      covered: in every program of its job the ledger either still holds the cents or has
      booked them as paid, and together that is the payment's amount. */
  lemma {:induction false} LivePaymentCovered(now: nat, actions: seq<Action>, p: nat)
    requires Careful(Start(now), actions)
    requires var w := Run(Start(now), actions);
             p < |w.provider.payments| && Live(w.provider.payments[p])
    ensures var w := Run(Start(now), actions);
            var pay := w.provider.payments[p];
            pay.job < |w.book.jobs|
            && var job := w.book.jobs[pay.job];
               pay.amount == ShareTotal(job.allocations)
               && (!job.released || (job.paid && !job.returned))
               && forall i: nat | i < |job.allocations| ::
                    Sum(w.book.entries, AllocationCents(pay.job, job.allocations[i].source)) == -job.allocations[i].cents
  {
    var w := Run(Start(now), actions);
    RunSafe(now, actions);
    LiveIsCovered(w, p);
    var pay := w.provider.payments[p];
    var job := w.book.jobs[pay.job];
    assert PaymentSafe(w, p) && JobOk(job);
    forall i: nat | i < |job.allocations|
      ensures Sum(w.book.entries, AllocationCents(pay.job, job.allocations[i].source)) == -job.allocations[i].cents
    {
      JobClosedForm(w.book, pay.job, i);
    }
  }

  lemma {:induction false} LiveIsCovered(w: World, p: nat)
    requires Linked(w) && AllCovered(w) && p < |w.provider.payments| && Live(w.provider.payments[p])
    ensures w.provider.payments[p].job < |w.book.jobs| && Covered(w.book.jobs[w.provider.payments[p].job])
  {
    assert PaymentSafe(w, p);
  }

  // ---------------------------------------------------------------- unrecorded refusals, exactly

  /** A live payment whose money was given back. */
  ghost predicate Uncovered(w: World) {
    exists p: nat :: p < |w.provider.payments| && Live(w.provider.payments[p])
                     && w.provider.payments[p].job < |w.book.jobs| && !Covered(w.book.jobs[w.provider.payments[p].job])
  }

  /** The worker is about to take a definitive refusal that no key records. */
  predicate TakesUnrecorded(w: World) {
    && w.task.Posting? && w.task.attempt < |w.attempts| && w.task.attempt in w.provider.answers
    && w.task.attempt in w.provider.unrecorded
    && w.provider.answers[w.task.attempt].Declined? && w.provider.answers[w.task.attempt].code in DEFINITIVE
  }

  ghost predicate EverCovered(w: World) {
    forall more | Careful(w, more) :: !Uncovered(Run(w, more))
  }

  /** Exactly when an unrecorded definitive refusal is harmless: taking it leaves every live
      payment covered, then and in every careful continuation, if and only if the job has no
      live payment and no request that may still make one. */
  lemma {:induction false} RefusalExact(w: World)
    requires Safe(w) && TakesUnrecorded(w)
    ensures EverCovered(Perform(w, TakeAnswer)) <==> Gone(w, w.attempts[w.task.attempt])
  {
    var after := Perform(w, TakeAnswer);
    if Gone(w, w.attempts[w.task.attempt]) {
      StepSafe(w, TakeAnswer);
      forall more | Careful(after, more)
        ensures !Uncovered(Run(after, more))
      {
        RunSafeFrom(after, more);
        NothingUncovered(Run(after, more));
      }
    } else {
      RecklessUncovers(w);
    }
  }

  lemma {:induction false} NothingUncovered(w: World)
    requires Safe(w)
    ensures !Uncovered(w)
  {
    forall p: nat | p < |w.provider.payments| && Live(w.provider.payments[p])
      ensures w.provider.payments[p].job < |w.book.jobs| && Covered(w.book.jobs[w.provider.payments[p].job])
    {
      LiveIsCovered(w, p);
    }
  }

  /** Taking a definitive refusal gives the money of its job back. */
  lemma {:induction false} RefusalUncovers(w: World)
    requires Sound(w) && TakesUnrecorded(w)
    ensures var after := Perform(w, TakeAnswer);
            var j := w.attempts[w.task.attempt];
            SideKept(w, after) && j < |after.book.jobs| && !Covered(after.book.jobs[j])
  {
    var j, job := w.attempts[w.task.attempt], w.task.snapshot;
    var idle := w.(task := Idle);
    Reframe(w, idle);
    assert JobOk(w.book.jobs[j]);
    NoteErrorSound(idle, j, job, w.now, "request declined");
    SettleKeepsValid(NoteError(w.book, j, job, w.now, "request declined"), j, Failed, w.now);
  }

  lemma {:induction false} RecklessUncovers(w: World)
    requires Sound(w) && TakesUnrecorded(w) && !Gone(w, w.attempts[w.task.attempt])
    ensures !EverCovered(Perform(w, TakeAnswer))
  {
    var after := Perform(w, TakeAnswer);
    var j := w.attempts[w.task.attempt];
    RefusalUncovers(w);
    StepSound(w, TakeAnswer);
    if j in w.provider.keys {
      assert KeySafe(w, j);
      var p := w.provider.keys[j].outcome.payment;
      assert Live(after.provider.payments[p]) && after.provider.payments[p].job == j;
      assert Careful(after, []) && Uncovered(Run(after, []));
    } else {
      var r :| r in w.provider.network && Underway(w, r) && w.attempts[r.attempt] == j;
      LatePayment(after, r);
    }
  }

  /** A request that is still under way makes a payment for a job whose money was given back. */
  lemma {:induction false} LatePayment(w: World, r: Request)
    requires Underway(w, r) && w.attempts[r.attempt] !in w.provider.keys
    requires w.attempts[r.attempt] < |w.book.jobs| && !Covered(w.book.jobs[w.attempts[r.attempt]])
    ensures !EverCovered(w)
  {
    var more := [Process(r, true, 0)];
    assert more[..0] == [] && Run(w, []) == w && Careful(w, []);
    var after := Run(w, more);
    assert after == Perform(w, more[0]);
    assert Live(after.provider.payments[|w.provider.payments|]);
    assert Careful(w, more) && Uncovered(after);
  }
}
