/** Every run of the Hub is sound, and every run without a reckless step is safe. */
module HubSafety {
  import opened Basics
  import opened Ledger
  import opened Book
  import opened BookInvariants
  import opened Payouts
  import opened Conservation
  import opened Hub

  // ---------------------------------------------------------------- framing

  /** The identities of all jobs are as they were. */
  predicate SameJobs(was: seq<Job>, jobs: seq<Job>) {
    |was| == |jobs| && forall j | 0 <= j < |was| :: SameIdentity(was[j], jobs[j])
  }

  /** A new book with the same payout identities stays linked. */
  lemma {:induction false} BookLinked(w: World, b: Book)
    requires Linked(w) && SameJobs(w.book.jobs, b.jobs)
    ensures Linked(w.(book := b))
  {
    var after := w.(book := b);
    forall j: nat | j < |b.jobs| ensures JobSafe(after, j) { assert JobSafe(w, j); }
    forall p: nat | p < |w.provider.payments| ensures PaymentSafe(after, p) { assert PaymentSafe(w, p); }
    forall key | key in w.provider.keys ensures KeySafe(after, key) { assert KeySafe(w, key); }
    forall r | r in w.provider.network ensures RequestSafe(after, r) { assert RequestSafe(w, r); }
    forall a | a in w.provider.answers ensures AnswerSafe(after, a) { assert AnswerSafe(w, a); }
    forall j | j in w.known ensures KnownSafe(after, j) { assert KnownSafe(w, j); }
  }

  /** Only what the worker waits for and has in hand differs. */
  lemma {:induction false} WorkerLinked(w: World, task: Task, known: map<nat, Job>)
    requires Linked(w) && forall j | j in known :: KnownSafe(w.(known := known), j)
    ensures Linked(w.(task := task, known := known))
  {
    var after := w.(task := task, known := known);
    forall j: nat | j < |w.book.jobs| ensures JobSafe(after, j) { assert JobSafe(w, j); }
    forall p: nat | p < |w.provider.payments| ensures PaymentSafe(after, p) { assert PaymentSafe(w, p); }
    forall key | key in w.provider.keys ensures KeySafe(after, key) { assert KeySafe(w, key); }
    forall r | r in w.provider.network ensures RequestSafe(after, r) { assert RequestSafe(w, r); }
    forall a | a in w.provider.answers ensures AnswerSafe(after, a) { assert AnswerSafe(w, a); }
    forall j | j in known ensures KnownSafe(after, j) { assert KnownSafe(w.(known := known), j); }
  }

  lemma {:induction false} Reframe(w: World, after: World)
    requires Sound(w) && after == w.(task := after.task) && TaskSafe(after)
    ensures Sound(after)
  {
    forall j | j in w.known ensures KnownSafe(w.(known := w.known), j) { assert KnownSafe(w, j); }
    WorkerLinked(w, after.task, w.known);
  }

  lemma {:induction false} BookSound(w: World, b: Book)
    requires Sound(w) && Valid(b) && SameJobs(w.book.jobs, b.jobs) && TaskSafe(w.(book := b))
    ensures Sound(w.(book := b))
  {
    BookLinked(w, b);
  }

  lemma {:induction false} TaskAfterJobs(w: World, b: Book)
    requires TaskSafe(w) && !w.task.Posting? && SameJobs(w.book.jobs, b.jobs)
    requires w.task.Asking? ==> b.rows == w.book.rows
    ensures TaskSafe(w.(book := b))
  {
    if w.task.Reading? {
      forall r | r in w.task.found ensures ReadSafe(w.(book := b), r) { assert ReadSafe(w, r); }
    }
  }

  lemma {:induction false} TaskAfterLedger(w: World, b: Book)
    requires TaskSafe(w) && b.jobs == w.book.jobs && (w.task.Asking? ==> b.rows == w.book.rows)
    ensures TaskSafe(w.(book := b))
  {
    if !w.task.Posting? {
      TaskAfterJobs(w, b);
    }
  }

  lemma {:induction false} LedgerStep(w: World, b: Book)
    requires Sound(w) && Valid(b) && b.jobs == w.book.jobs
    requires w.task.Asking? ==> b.rows == w.book.rows
    ensures Sound(w.(book := b))
  {
    TaskAfterLedger(w, b);
    BookSound(w, b);
  }

  // ---------------------------------------------------------------- time and the provider

  lemma {:induction false} TickLinked(w: World, ms: nat)
    requires Linked(w)
    ensures Linked(w.(now := w.now + ms))
  {
    var after := w.(now := w.now + ms);
    forall j: nat | j < |w.book.jobs| ensures JobSafe(after, j) { assert JobSafe(w, j); }
    forall p: nat | p < |w.provider.payments| ensures PaymentSafe(after, p) { assert PaymentSafe(w, p); }
    forall key | key in w.provider.keys ensures KeySafe(after, key) { assert KeySafe(w, key); }
    forall r | r in w.provider.network ensures RequestSafe(after, r) { assert RequestSafe(w, r); }
    forall a | a in w.provider.answers ensures AnswerSafe(after, a) { assert AnswerSafe(w, a); }
    forall j | j in w.known ensures KnownSafe(after, j) { assert KnownSafe(w, j); }
  }

  /** What the worker waits for survives whatever keeps the book, the attempts and the end of
      payments. */
  lemma {:induction false} TaskSurvives(w: World, after: World)
    requires TaskSafe(w) && after.task == w.task && after.book == w.book && after.attempts == w.attempts
    requires |w.provider.payments| <= |after.provider.payments|
    requires forall p | 0 <= p < |w.provider.payments| && !Live(w.provider.payments[p]) :: !Live(after.provider.payments[p])
    ensures TaskSafe(after)
  {
    if w.task.Reading? {
      forall r | r in w.task.found ensures ReadSafe(after, r) { assert ReadSafe(w, r); }
    }
  }

  lemma {:induction false} TickSound(w: World, ms: nat)
    requires Sound(w)
    ensures Sound(w.(now := w.now + ms))
  {
    TickLinked(w, ms);
    TaskSurvives(w, w.(now := w.now + ms));
  }

  /** The margin that makes the key work: a request under way is always inside its key's
      replay window, so the provider never handles one key afresh twice. */
  lemma {:induction false} InsideReplayWindow(w: World, r: Request)
    requires Linked(w) && Underway(w, r)
    ensures var key := w.attempts[r.attempt];
            key in w.provider.keys ==> w.now < w.provider.keys[key].first + REPLAY
  {
    assert RequestSafe(w, r);
    var key := w.attempts[r.attempt];
    if key in w.provider.keys {
      assert KeySafe(w, key);
    }
  }

  /** The provider takes a request off the network and answers it, without handling a key. */
  lemma {:induction false} AnsweredLinked(w: World, p: Provider, a: nat)
    requires Linked(w) && a < |w.attempts|
    requires p.payments == w.provider.payments && p.keys == w.provider.keys && p.network <= w.provider.network
    requires p.answers.Keys == w.provider.answers.Keys + {a}
    requires forall b | b in w.provider.answers && b != a :: p.answers[b] == w.provider.answers[b]
    requires forall b | b in w.provider.answers && b != a :: b in p.unrecorded <==> b in w.provider.unrecorded
    requires AnswerSafe(w.(provider := p), a)
    ensures Linked(w.(provider := p))
  {
    var after := w.(provider := p);
    forall j: nat | j < |w.book.jobs| ensures JobSafe(after, j) { assert JobSafe(w, j); }
    forall q: nat | q < |p.payments| ensures PaymentSafe(after, q) { assert PaymentSafe(w, q); }
    forall k | k in p.keys ensures KeySafe(after, k) { assert KeySafe(w, k); }
    forall o | o in p.network ensures RequestSafe(after, o) { assert RequestSafe(w, o); }
    forall b | b in p.answers
      ensures AnswerSafe(after, b)
    {
      if b != a {
        assert AnswerSafe(w, b);
      }
    }
    forall j | j in w.known ensures KnownSafe(after, j) { assert KnownSafe(w, j); }
  }

  /** The provider handles a key for the first time. */
  lemma {:induction false} FreshLinked(w: World, r: Request, accept: bool, code: nat)
    requires Linked(w) && Underway(w, r) && w.attempts[r.attempt] !in w.provider.keys
    ensures Linked(w.(provider := ProcessRequest(w, r, accept, code)))
  {
    var key := w.attempts[r.attempt];
    var p := ProcessRequest(w, r, accept, code);
    var after := w.(provider := p);
    assert RequestSafe(w, r) && JobSafe(w, key);
    forall j: nat | j < |w.book.jobs| ensures JobSafe(after, j) { assert JobSafe(w, j); }
    forall q: nat | q < |p.payments|
      ensures PaymentSafe(after, q)
    {
      if q < |w.provider.payments| {
        assert PaymentSafe(w, q);
      }
    }
    forall k | k in p.keys
      ensures KeySafe(after, k)
    {
      if k != key {
        assert KeySafe(w, k);
      }
    }
    forall o | o in p.network ensures RequestSafe(after, o) { assert RequestSafe(w, o); }
    forall a | a in p.answers
      ensures AnswerSafe(after, a)
    {
      if a != r.attempt {
        assert AnswerSafe(w, a);
      }
    }
    forall j | j in w.known ensures KnownSafe(after, j) { assert KnownSafe(w, j); }
  }

  lemma {:induction false} ProcessSound(w: World, r: Request, accept: bool, code: nat)
    requires Sound(w) && Underway(w, r)
    ensures Sound(w.(provider := ProcessRequest(w, r, accept, code)))
  {
    var p := ProcessRequest(w, r, accept, code);
    InsideReplayWindow(w, r);
    if w.attempts[r.attempt] in w.provider.keys {
      AnsweredLinked(w, p, r.attempt);
    } else {
      FreshLinked(w, r, accept, code);
    }
    TaskSurvives(w, w.(provider := p));
  }

  lemma {:induction false} RefuseSound(w: World, r: Request, code: nat)
    requires Sound(w) && Underway(w, r)
    ensures Sound(w.(provider := RefuseRequest(w.provider, r, code)))
  {
    AnsweredLinked(w, RefuseRequest(w.provider, r, code), r.attempt);
    TaskSurvives(w, w.(provider := RefuseRequest(w.provider, r, code)));
  }

  function Progressed(w: World, p: nat, status: Status): World
    requires p < |w.provider.payments|
  {
    w.(provider := w.provider.(payments := w.provider.payments[p := w.provider.payments[p].(status := status)]))
  }

  lemma {:induction false} ProgressLinked(w: World, p: nat, status: Status)
    requires Linked(w) && p < |w.provider.payments| && Recognised(status)
    ensures Linked(Progressed(w, p, status))
  {
    var after := Progressed(w, p, status);
    forall j: nat | j < |w.book.jobs| ensures JobSafe(after, j) { assert JobSafe(w, j); }
    forall q: nat | q < |after.provider.payments| ensures PaymentSafe(after, q) { assert PaymentSafe(w, q); }
    forall key | key in w.provider.keys ensures KeySafe(after, key) { assert KeySafe(w, key); }
    forall r | r in w.provider.network ensures RequestSafe(after, r) { assert RequestSafe(w, r); }
    forall a | a in w.provider.answers ensures AnswerSafe(after, a) { assert AnswerSafe(w, a); }
    forall j | j in w.known ensures KnownSafe(after, j) { assert KnownSafe(w, j); }
  }

  lemma {:induction false} ProgressSound(w: World, p: nat, status: Status)
    requires Sound(w) && p < |w.provider.payments| && Live(w.provider.payments[p]) && Recognised(status)
    ensures Sound(Progressed(w, p, status))
  {
    ProgressLinked(w, p, status);
    TaskSurvives(w, Progressed(w, p, status));
  }

  // ---------------------------------------------------------------- payouts

  /** One more job, without a payment, that the worker has in hand. */
  lemma {:induction false} AdmitLinked(w: World, b: Book)
    requires Linked(w) && |b.jobs| == |w.book.jobs| + 1 && b.jobs[..|w.book.jobs|] == w.book.jobs
    requires b.jobs[|w.book.jobs|].created <= w.now && b.jobs[|w.book.jobs|].stripeId.None?
    ensures Linked(w.(book := b, known := w.known[|w.book.jobs| := b.jobs[|w.book.jobs|]]))
  {
    var n := |w.book.jobs|;
    var after := w.(book := b, known := w.known[n := b.jobs[n]]);
    assert forall j | 0 <= j < n :: b.jobs[j] == w.book.jobs[j];
    forall j: nat | j < |b.jobs|
      ensures JobSafe(after, j)
    {
      if j < n {
        assert JobSafe(w, j);
      }
    }
    forall p: nat | p < |w.provider.payments| ensures PaymentSafe(after, p) { assert PaymentSafe(w, p); }
    forall key | key in w.provider.keys ensures KeySafe(after, key) { assert KeySafe(w, key); }
    forall r | r in w.provider.network ensures RequestSafe(after, r) { assert RequestSafe(w, r); }
    forall a | a in w.provider.answers ensures AnswerSafe(after, a) { assert AnswerSafe(w, a); }
    forall j | j in after.known
      ensures KnownSafe(after, j)
    {
      if j != n {
        assert KnownSafe(w, j);
      }
    }
  }

  /** What an admission adds. */
  lemma {:induction false} AdmissionJobs(b: Book, owner: string, cycle: nat, recipient: string, account: string,
                                         now: nat)
    ensures var after := AdmitPayout(b, owner, cycle, recipient, account, now);
            var n := |b.jobs|;
            || after == b
            || (|after.jobs| == n + 1 && after.jobs[..n] == b.jobs && after.rows == b.rows
                && after.jobs[n].created == now && after.jobs[n].stripeId.None? && Covered(after.jobs[n]))
  {
  }

  lemma {:induction false} AdmittedSound(w: World, b: Book)
    requires Sound(w) && w.task.Idle? && Valid(b)
    requires |b.jobs| == |w.book.jobs| + 1 && b.jobs[..|w.book.jobs|] == w.book.jobs
    requires b.jobs[|w.book.jobs|].created <= w.now && b.jobs[|w.book.jobs|].stripeId.None?
    ensures Sound(w.(book := b, known := w.known[|w.book.jobs| := b.jobs[|w.book.jobs|]]))
  {
    AdmitLinked(w, b);
  }

  lemma {:induction false} AdmitSound(w: World, owner: string, cycle: nat, recipient: string, account: string)
    requires Sound(w) && w.task.Idle?
    ensures Sound(Perform(w, Admit(owner, cycle, recipient, account)))
  {
    var b := AdmitPayout(w.book, owner, cycle, recipient, account, w.now);
    AdmitKeepsValid(w.book, owner, cycle, recipient, account, w.now);
    AdmissionJobs(w.book, owner, cycle, recipient, account, w.now);
    if b == w.book {
      assert Perform(w, Admit(owner, cycle, recipient, account)) == w;
    } else {
      AdmittedSound(w, b);
    }
  }

  /** The request that submit() sends. */
  function Sent(w: World, j: nat, job: Job): World {
    w.(attempts := w.attempts + [j],
       provider := w.provider.(network := w.provider.network + {Request(|w.attempts|, job.amount, job.recipient, w.now)}))
  }

  lemma {:induction false} SentLinked(w: World, j: nat, job: Job)
    requires Linked(w) && j < |w.book.jobs| && SameDetails(job, w.book.jobs[j])
    requires job.created <= w.now <= job.created + CUTOFF
    ensures Linked(Sent(w, j, job))
  {
    var after := Sent(w, j, job);
    forall k: nat | k < |w.book.jobs| ensures JobSafe(after, k) { assert JobSafe(w, k); }
    forall p: nat | p < |w.provider.payments| ensures PaymentSafe(after, p) { assert PaymentSafe(w, p); }
    forall key | key in w.provider.keys ensures KeySafe(after, key) { assert KeySafe(w, key); }
    forall r | r in after.provider.network
      ensures RequestSafe(after, r)
    {
      if r in w.provider.network {
        assert RequestSafe(w, r);
      }
    }
    forall a | a in w.provider.answers ensures AnswerSafe(after, a) { assert AnswerSafe(w, a); }
    forall k | k in w.known ensures KnownSafe(after, k) { assert KnownSafe(w, k); }
  }

  /** The worker's copy of a job without a payment is the job itself: the check before an
      attempt always passes. */
  lemma {:induction false} AttemptIdentity(w: World, j: nat)
    requires Linked(w) && j in w.known && j < |w.book.jobs| && w.book.jobs[j].stripeId.None?
    ensures SameIdentity(w.book.jobs[j], w.known[j])
  {
    assert KnownSafe(w, j);
  }

  lemma {:induction false} AttemptSound(w: World, j: nat)
    requires Sound(w) && w.task.Idle? && j < |w.book.jobs| && j in w.known
    ensures Sound(BeginAttempt(w, j))
  {
    var job := w.known[j];
    assert JobSafe(w, j);
    if w.book.jobs[j].stripeId.None? && w.book.jobs[j].status == Submitting && !w.book.jobs[j].conflict {
      AttemptIdentity(w, j);
      if w.now - job.created > CUTOFF {
        TooOldSound(w, j);
      } else {
        SentLinked(w, j, job);
        var sent := Sent(w, j, job);
        forall k | k in sent.known ensures KnownSafe(sent.(known := sent.known), k) { assert KnownSafe(sent, k); }
        WorkerLinked(sent, Posting(|w.attempts|, job), w.known);
      }
    }
  }

  /** One job's other fields change. */
  lemma {:induction false} FieldsSound(w: World, j: nat, job: Job)
    requires Sound(w) && !w.task.Posting? && j < |w.book.jobs|
    requires SameIdentity(w.book.jobs[j], job) && SameMoney(w.book.jobs[j], job) && JobOk(job)
    ensures Sound(w.(book := w.book.(jobs := w.book.jobs[j := job])))
  {
    var b := w.book.(jobs := w.book.jobs[j := job]);
    JobFieldsKeepValid(w.book, j, job);
    TaskAfterJobs(w, b);
    BookSound(w, b);
  }

  lemma {:induction false} TooOldSound(w: World, j: nat)
    requires Sound(w) && w.task.Idle? && j < |w.book.jobs| && w.book.jobs[j].status == Submitting
    ensures var job := w.book.jobs[j].(status := NeedsReview, error := Some("unknown submission outcome"));
            Sound(w.(book := w.book.(jobs := w.book.jobs[j := job])))
  {
    assert JobOk(w.book.jobs[j]);
    FieldsSound(w, j, w.book.jobs[j].(status := NeedsReview, error := Some("unknown submission outcome")));
  }

  lemma {:induction false} NotedSound(w: World, j: nat, at: nat, message: string)
    requires Sound(w) && !w.task.Posting? && j < |w.book.jobs|
    ensures Sound(w.(book := Noted(w.book, j, at, message)))
    ensures SameJobs(w.book.jobs, Noted(w.book, j, at, message).jobs)
  {
    assert JobOk(w.book.jobs[j]);
    FieldsSound(w, j, w.book.jobs[j].(checked := at, error := Some(message)));
  }

  /** jobError() with the identity it expects only notes the error. */
  lemma {:induction false} NoteErrorSound(w: World, j: nat, expected: Job, at: nat, message: string)
    requires Sound(w) && !w.task.Posting? && j < |w.book.jobs| && SameIdentity(w.book.jobs[j], expected)
    ensures NoteError(w.book, j, expected, at, message) == Noted(w.book, j, at, message)
    ensures Sound(w.(book := NoteError(w.book, j, expected, at, message)))
  {
    assert JobOk(w.book.jobs[j]);
    NotedSound(w, j, at, message);
  }

  /** Settling changes no payment identity, and uncovers a job only when its payment closed. */
  lemma {:induction false} SettleEffect(b: Book, j: nat, status: Status, at: nat)
    requires j < |b.jobs| && SettleInState(b, j, status, at).Settled? && JobOk(b.jobs[j])
    ensures var after := SettleInState(b, j, status, at).book;
            && SameJobs(b.jobs, after.jobs) && after.rows == b.rows
            && forall k | 0 <= k < |b.jobs| && !Covered(after.jobs[k]) :: !Covered(b.jobs[k]) || (k == j && Closing(status))
  {
  }

  lemma {:induction false} SettleOrNoteSound(w: World, j: nat, status: Status, at: nat)
    requires Sound(w) && j < |w.book.jobs| && !w.task.Posting?
    ensures Sound(w.(book := SettleOrNote(w.book, j, status, at)))
    ensures SameJobs(w.book.jobs, SettleOrNote(w.book, j, status, at).jobs)
  {
    var b := SettleOrNote(w.book, j, status, at);
    SettleKeepsValid(w.book, j, status, at);
    assert JobOk(w.book.jobs[j]);
    SettleEffect(w.book, j, status, at);
    TaskAfterJobs(w, b);
    BookSound(w, b);
  }

  lemma {:induction false} SettleBookSound(w: World, j: nat, expected: Job, status: Status, at: nat)
    requires Sound(w) && j < |w.book.jobs| && !w.task.Posting? && SameIdentity(w.book.jobs[j], expected)
    ensures Sound(w.(book := SettleBook(w.book, j, expected, status, at)))
  {
    if Recognised(status) {
      SettleOrNoteSound(w, j, status, at);
    }
  }

  lemma {:induction false} CommitOneSound(w: World, r: Read, at: nat, message: string)
    requires Sound(w) && !w.task.Posting? && r.job < |w.book.jobs| && SameIdentity(w.book.jobs[r.job], r.asked)
    ensures Sound(w.(book := CommitOne(w.book, r, at, message)))
    ensures SameJobs(w.book.jobs, CommitOne(w.book, r, at, message).jobs)
  {
    if r.status.None? {
      NotedSound(w, r.job, at, message);
    } else {
      SettleOrNoteSound(w, r.job, r.status.value, at);
    }
  }

  predicate Asked(jobs: seq<Job>, found: seq<Read>) {
    forall r | r in found :: r.job < |jobs| && SameIdentity(jobs[r.job], r.asked)
  }

  lemma {:induction false} CommitAllSound(w: World, found: seq<Read>, at: nat, message: string)
    requires Sound(w) && !w.task.Posting? && Asked(w.book.jobs, found)
    ensures Sound(w.(book := CommitAll(w.book, found, at, message)))
    ensures SameJobs(w.book.jobs, CommitAll(w.book, found, at, message).jobs)
  {
    if found != [] {
      var n := |found| - 1;
      assert found[n] in found && forall r :: r in found[..n] ==> r in found;
      CommitAllSound(w, found[..n], at, message);
      CommitOneSound(w.(book := CommitAll(w.book, found[..n], at, message)), found[n], at, message);
    }
  }

  lemma {:induction false} TakeAnswerSound(w: World)
    requires Sound(w) && w.task.Posting? && w.task.attempt < |w.attempts| && w.task.attempt in w.provider.answers
    requires w.attempts[w.task.attempt] < |w.book.jobs|
    ensures Sound(TakeAnswerOf(w))
  {
    var a := w.task.attempt;
    var j, job := w.attempts[a], w.task.snapshot;
    assert AnswerSafe(w, a);
    var idle := w.(task := Idle);
    Reframe(w, idle);
    match w.provider.answers[a]
    case Created(payment) =>
      assert KeySafe(w, j);
      AcceptedSound(idle, j, job, payment);
    case Declined(code) =>
      NoteErrorSound(idle, j, job, w.now, "request declined");
      if code in DEFINITIVE {
        SettleBookSound(idle.(book := NoteError(w.book, j, job, w.now, "request declined")), j, job, Failed, w.now);
      }
  }

  /** Storing the accepted payment's identifier, in the book and in the worker's copy. */
  lemma {:induction false} AcceptedLinked(w: World, b: Book, j: nat, snapshot: Job, payment: nat)
    requires Linked(w) && j < |w.book.jobs| && SameIdentity(w.book.jobs[j], snapshot) && snapshot.stripeId.None?
    requires payment < |w.provider.payments| && w.provider.payments[payment].job == j
    requires b.jobs == w.book.jobs[j := w.book.jobs[j].(stripeId := Some(payment))]
    ensures Linked(w.(book := b, known := w.known[j := snapshot.(stripeId := Some(payment))]))
  {
    var after := w.(book := b, known := w.known[j := snapshot.(stripeId := Some(payment))]);
    forall k: nat | k < |b.jobs| ensures JobSafe(after, k) { assert JobSafe(w, k); }
    forall p: nat | p < |w.provider.payments| ensures PaymentSafe(after, p) { assert PaymentSafe(w, p); }
    forall key | key in w.provider.keys ensures KeySafe(after, key) { assert KeySafe(w, key); }
    forall r | r in w.provider.network ensures RequestSafe(after, r) { assert RequestSafe(w, r); }
    forall a | a in w.provider.answers ensures AnswerSafe(after, a) { assert AnswerSafe(w, a); }
    forall k | k in after.known
      ensures KnownSafe(after, k)
    {
      if k != j {
        assert KnownSafe(w, k);
      }
    }
  }

  lemma {:induction false} AcceptedSound(w: World, j: nat, snapshot: Job, payment: nat)
    requires Sound(w) && w.task.Idle? && j < |w.book.jobs| && SameIdentity(w.book.jobs[j], snapshot) && snapshot.stripeId.None?
    requires w.book.jobs[j].status == Submitting
    requires payment < |w.provider.payments| && w.provider.payments[payment].job == j
    ensures var stored := snapshot.(stripeId := Some(payment));
            Sound(w.(book := StoreAccepted(w.book, j, snapshot, payment), task := Confirming(j, stored), known := w.known[j := stored]))
  {
    var job := w.book.jobs[j].(stripeId := Some(payment));
    var stored := snapshot.(stripeId := Some(payment));
    assert JobOk(w.book.jobs[j]);
    JobFieldsKeepValid(w.book, j, job);
    var b := StoreAccepted(w.book, j, snapshot, payment);
    AcceptedLinked(w, b, j, snapshot, payment);
    var after := w.(book := b, known := w.known[j := stored]);
    forall k | k in after.known ensures KnownSafe(after.(known := after.known), k) { assert KnownSafe(after, k); }
    WorkerLinked(after, Confirming(j, stored), after.known);
  }

  lemma {:induction false} ConfirmSound(w: World)
    requires Sound(w) && w.task.Confirming? && w.task.job < |w.book.jobs|
    ensures Sound(ConfirmOf(w))
  {
    var j, job := w.task.job, w.task.snapshot;
    var idle := w.(task := Idle);
    Reframe(w, idle);
    var status := StatusOf(w, job);
    if status.None? {
      NoteErrorSound(idle, j, job, w.now, "payout identity mismatch");
    } else {
      SettleBookSound(idle, j, job, status.value, w.now);
    }
  }

  lemma {:induction false} ReadStatusSound(w: World, j: nat, status: Option<Status>)
    requires Sound(w) && w.task.Reading? && j in w.known && w.known[j].stripeId.Some?
    requires status == None || status == StatusOf(w, w.known[j])
    ensures Sound(w.(task := Reading(w.task.found + [Read(j, w.known[j], status)])))
  {
    var after := w.(task := Reading(w.task.found + [Read(j, w.known[j], status)]));
    assert KnownSafe(w, j) && JobSafe(w, j);
    forall r | r in after.task.found
      ensures ReadSafe(after, r)
    {
      if r in w.task.found {
        assert ReadSafe(w, r);
      }
    }
    Reframe(w, after);
  }

  lemma {:induction false} LoadSound(w: World)
    requires Sound(w) && w.task.Idle?
    ensures Sound(Perform(w, LoadJobs))
  {
    var known := map j | 0 <= j < |w.book.jobs| :: w.book.jobs[j];
    WorkerLinked(w, w.task, known);
  }

  lemma {:induction false} CrashSound(w: World)
    requires Sound(w)
    ensures Sound(Perform(w, Crash))
  {
    WorkerLinked(w, Idle, map[]);
  }

  // ---------------------------------------------------------------- the other transactions

  lemma {:induction false} PurchaseBounds(p: Purchase)
    requires Admissible(p)
    ensures 0 < Basis(p) <= PaidAmount(p)
  {
  }

  predicate OfProvider(a: Action) { a.Tick? || a.Process? || a.Refuse? || a.Progress? || a.Crash? }

  predicate OfOperator(a: Action) {
    a.AddMember? || a.OperatorRecord? || a.OperatorReverse? || a.CreditRebate? || a.AssessFees?
  }

  predicate OfRows(a: Action) { a.AdmitPurchase? || a.AskRefunds? || a.AdjustRefunds? || a.CorrectRecordedRate? }

  lemma {:induction false} ProviderStepSound(w: World, a: Action)
    requires Sound(w) && OfProvider(a)
    ensures Sound(Perform(w, a))
  {
    match a
    case Tick(ms) => TickSound(w, ms);
    case Process(r, accept, code) =>
      if Underway(w, r) {
        ProcessSound(w, r, accept, code);
      }
    case Refuse(r, code) =>
      if Underway(w, r) {
        RefuseSound(w, r, code);
      }
    case Progress(p, status) =>
      if p < |w.provider.payments| && Live(w.provider.payments[p]) && Recognised(status) {
        ProgressSound(w, p, status);
      }
    case Crash => CrashSound(w);
  }

  /** An operator transaction leaves jobs and rows as they are. */
  lemma {:induction false} OperatorLedger(w: World, a: Action)
    requires Valid(w.book) && OfOperator(a)
    ensures var after := Perform(w, a);
            after == w.(book := after.book) && Valid(after.book)
            && after.book.jobs == w.book.jobs && after.book.rows == w.book.rows
  {
    match a
    case AddMember(member) =>
    case OperatorRecord(owner, source, kind, amount, period, text, note) =>
      RecordKeepsValid(w.book, owner, source, kind, amount, period, text, note);
    case OperatorReverse(entry, note) =>
      ReverseKeepsValid(w.book, entry, note);
    case CreditRebate(owner, period, cents) =>
      OperatorAppend(w.book, Entry(|w.book.entries|, owner, Exchange, Earning, cents, period, Rebate(period, owner), "", false, None));
    case AssessFees(current) =>
      AssessFromKeepsValid(w.book, w.book.members, 0, current);
  }

  lemma {:induction false} OperatorStepSound(w: World, a: Action)
    requires Sound(w) && OfOperator(a)
    ensures Sound(Perform(w, a))
  {
    OperatorLedger(w, a);
    LedgerStep(w, Perform(w, a).book);
  }

  /** The book after a commission transaction; the jobs stay as they are. */
  lemma {:induction false} PurchaseLedger(b: Book, id: string, owner: string, p: Purchase, rate: nat, period: nat)
    requires Valid(b) && Admissible(p) && rate <= 100
    ensures var after := AdmitRow(b, id, p.Checkout?, owner, PaidAmount(p), Basis(p), rate, period);
            Valid(after) && after.jobs == b.jobs
  {
    PurchaseBounds(p);
    AdmitRowKeepsValid(b, id, p.Checkout?, owner, PaidAmount(p), Basis(p), rate, period);
  }

  lemma {:induction false} CorrectionLedger(b: Book, row: string, owner: string, rate: nat)
    requires Valid(b) && rate <= 100 && (row in b.rows ==> b.rows[row].paid > 0)
    ensures var r := CorrectRate(b, row, owner, rate);
            r.Some? ==> Valid(r.value) && r.value.jobs == b.jobs
  {
    CorrectRateKeepsValid(b, row, owner, rate);
  }

  lemma {:induction false} RefundLedger(w: World, refunded: nat, disputed: bool)
    requires Valid(w.book) && TaskSafe(w)
    ensures var after := Perform(w, AdjustRefunds(refunded, disputed));
            Valid(after.book) && after.book.jobs == w.book.jobs && after == w.(book := after.book, task := after.task)
            && (after.task == w.task || after.task.Idle?) && (after.task.Asking? ==> after.book == w.book)
  {
    if w.task.Asking? {
      AdjustRowKeepsValid(w.book, w.task.row, refunded, disputed);
    }
  }

  lemma {:induction false} RowLedger(w: World, a: Action)
    requires Valid(w.book) && TaskSafe(w) && (a.AdmitPurchase? || a.AdjustRefunds? || a.CorrectRecordedRate?)
    ensures var after := Perform(w, a);
            Valid(after.book) && after.book.jobs == w.book.jobs && after == w.(book := after.book, task := after.task)
            && (after.task == w.task || after.task.Idle?) && (after.task.Asking? ==> after.book == w.book)
  {
    match a
    case AdmitPurchase(id, owner, purchase, own, active, period) =>
      if w.task.Idle? && Admissible(purchase) && AdmissionRate(own, active) <= 100 {
        PurchaseLedger(w.book, id, owner, purchase, AdmissionRate(own, active), period);
      }
    case AdjustRefunds(refunded, disputed) => RefundLedger(w, refunded, disputed);
    case CorrectRecordedRate(row, owner, rate) =>
      if w.task.Idle? && rate <= 100 && (row in w.book.rows ==> w.book.rows[row].paid > 0) {
        CorrectionLedger(w.book, row, owner, rate);
      }
  }

  lemma {:induction false} RowStepSound(w: World, a: Action)
    requires Sound(w) && OfRows(a)
    ensures Sound(Perform(w, a))
  {
    var after := Perform(w, a);
    if a.AskRefunds? {
      Reframe(w, after);
    } else {
      RowLedger(w, a);
      Reframe(w, w.(task := after.task));
      LedgerStep(w.(task := after.task), after.book);
    }
  }

  lemma {:induction false} PayoutStepSound(w: World, a: Action)
    requires Sound(w) && !OfProvider(a) && !OfOperator(a) && !OfRows(a)
    ensures Sound(Perform(w, a))
  {
    match a
    case LoadJobs =>
      if w.task.Idle? {
        LoadSound(w);
      }
    case Admit(owner, cycle, recipient, account) =>
      if w.task.Idle? {
        AdmitSound(w, owner, cycle, recipient, account);
      }
    case Attempt(j) =>
      if w.task.Idle? && j < |w.book.jobs| && j in w.known {
        AttemptSound(w, j);
      }
    case TakeAnswer =>
      if w.task.Posting? && w.task.attempt in w.provider.answers {
        TakeAnswerSound(w);
      }
    case Confirm =>
      if w.task.Confirming? {
        ConfirmSound(w);
      }
    case GiveUp(message) => GiveUpSound(w, message);
    case BeginReading =>
      if w.task.Idle? {
        Reframe(w, w.(task := Reading([])));
      }
    case ReadStatus(j) =>
      if w.task.Reading? && j in w.known && w.known[j].stripeId.Some? {
        ReadStatusSound(w, j, StatusOf(w, w.known[j]));
      }
    case FailToRead(j) =>
      if w.task.Reading? && j in w.known && w.known[j].stripeId.Some? {
        ReadStatusSound(w, j, None);
      }
    case CommitReads(at, message) => CommitReadsSound(w, at, message);
  }

  lemma {:induction false} GiveUpSound(w: World, message: string)
    requires Sound(w)
    ensures Sound(Perform(w, GiveUp(message)))
  {
    if w.task.Posting? || w.task.Confirming? {
      var j := if w.task.Posting? then w.attempts[w.task.attempt] else w.task.job;
      var idle := w.(task := Idle);
      Reframe(w, idle);
      NoteErrorSound(idle, j, w.task.snapshot, w.now, message);
      assert Perform(w, GiveUp(message)) == idle.(book := NoteError(idle.book, j, w.task.snapshot, w.now, message));
    }
  }

  lemma {:induction false} CommitReadsSound(w: World, at: nat, message: string)
    requires Sound(w)
    ensures Sound(Perform(w, CommitReads(at, message)))
  {
    if w.task.Reading? && at <= w.now {
      forall r | r in w.task.found
        ensures r.job < |w.book.jobs| && SameIdentity(w.book.jobs[r.job], r.asked)
      {
        assert ReadSafe(w, r);
      }
      Reframe(w, w.(task := Idle));
      CommitAllSound(w.(task := Idle), w.task.found, at, message);
    }
  }

  /** Every action keeps what every run keeps. */
  lemma {:induction false} StepSound(w: World, a: Action)
    requires Sound(w)
    ensures Sound(Perform(w, a))
  {
    if OfProvider(a) {
      ProviderStepSound(w, a);
    } else if OfOperator(a) {
      OperatorStepSound(w, a);
    } else if OfRows(a) {
      RowStepSound(w, a);
    } else {
      PayoutStepSound(w, a);
    }
  }

  lemma {:induction false} StartSound(now: nat)
    ensures Sound(Start(now))
  {
    var w := Start(now);
    forall j: nat, s: Source
      ensures JobTagged(w.book.entries, w.book.jobs, j, s)
    {
    }
    forall owner: string
      ensures OwnerOk(w.book.entries, w.book.jobs, owner)
    {
    }
    forall id: string
      ensures RowTracked(w.book.entries, w.book.rows, id)
    {
    }
  }

  /** Every reachable state is sound: any interleaving of the worker, operators, the provider,
      time and crashes, with recorded and unrecorded refusals. */
  lemma {:induction false} RunSound(now: nat, actions: seq<Action>)
    ensures Sound(Run(Start(now), actions))
  {
    if actions == [] {
      StartSound(now);
    } else {
      RunSound(now, actions[..|actions| - 1]);
      StepSound(Run(Start(now), actions[..|actions| - 1]), actions[|actions| - 1]);
    }
  }

  // ---------------------------------------------------------------- what it means

  /** In every run a job has at most one payment at the provider, for exactly its amount
      and recipient. */
  lemma {:induction false} AtMostOnePayment(now: nat, actions: seq<Action>, p: nat, q: nat)
    requires var w := Run(Start(now), actions);
             p < |w.provider.payments| && q < |w.provider.payments|
             && w.provider.payments[p].job == w.provider.payments[q].job
    ensures p == q
    ensures var w := Run(Start(now), actions);
            var pay := w.provider.payments[p];
            pay.job < |w.book.jobs| && pay.amount == w.book.jobs[pay.job].amount
            && pay.recipient == w.book.jobs[pay.job].recipient
  {
    RunSound(now, actions);
    assert PaymentSafe(Run(Start(now), actions), p) && PaymentSafe(Run(Start(now), actions), q);
  }

  /** In every run no job is ever marked as an identity conflict: the five places of the
      submission and reconciliation code that compare a job with what the worker has in hand
      (before an attempt, when storing a payment, when noting an error, when settling, and for
      each collected outcome) always find the identity unchanged. */
  lemma {:induction false} NoIdentityConflict(now: nat, actions: seq<Action>, j: nat)
    requires j < |Run(Start(now), actions).book.jobs|
    ensures !Run(Start(now), actions).book.jobs[j].conflict
  {
    RunSound(now, actions);
    assert JobOk(Run(Start(now), actions).book.jobs[j]);
  }

  /** In every run the entries of a commission row sum to its net commission, which lies
      between zero and the basis, which is at most what was collected. */
  lemma {:induction false} CommissionClosedForm(now: nat, actions: seq<Action>, id: string)
    requires id in Run(Start(now), actions).book.rows
    ensures var b := Run(Start(now), actions).book;
            var row := b.rows[id];
            && row.paid > 0
            && Sum(b.entries, RowCents(id))
               == (if row.disputed then 0 else
                     row.commission - Min(row.commission, row.commission * Min(row.refunded, row.paid) / row.paid))
            && 0 <= Sum(b.entries, RowCents(id)) <= row.basis <= row.paid
  {
    RunSound(now, actions);
    var b := Run(Start(now), actions).book;
    var row := b.rows[id];
    assert RowTracked(b.entries, b.rows, id);
    ClawedBackBounds(row.commission, row.refunded, row.paid, row.disputed);
    CommissionBound(row.basis, row.rate);
  }

  /** In every run an owner's balances are the credited money less what was paid, as operator
      payouts nobody reversed or as jobs paid and not returned, and less what unreleased jobs
      reserve. */
  lemma {:induction false} MoneyConserved(now: nat, actions: seq<Action>, owner: string)
    ensures var b := Run(Start(now), actions).book;
            && CombinedBalance(b.entries, owner)
               == Credited(b.entries, owner) - PaidCents(b.entries, owner) - SumJobs(b.jobs, UnreleasedOf(owner))
            && PaidCents(b.entries, owner)
               == UnreversedManualPayouts(b.entries, owner) + SumJobs(b.jobs, PaidOutOf(owner))
  {
    RunSound(now, actions);
    Conserved(Run(Start(now), actions).book, owner);
    PaidCentsMeaning(Run(Start(now), actions).book, owner);
  }
}
