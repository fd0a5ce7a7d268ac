/** One Hub process, its provider, its operators and its crashes, as runs over one state.
    The Hub's provider-side work is serial; operators and the provider act at any await;
    a crash forgets what the worker was waiting for and nothing else. */
module Hub {
  import opened Basics
  import opened Ledger
  import opened Book
  import opened BookInvariants

  const HOUR := 3_600_000
  /** No attempt starts when the job is older than this. */
  const CUTOFF := 23 * HOUR
  /** The provider replays the first outcome of a key for this long. */
  const REPLAY := 24 * HOUR
  /** A request that was sent is processed sooner than this, or never. */
  const LIFETIME := HOUR

  const DEFINITIVE: set<nat> := {400, 402, 403, 404, 422}

  datatype Outcome = Created(payment: nat) | Declined(code: nat)
  datatype Payment = Payment(job: nat, amount: int, recipient: string, status: Status)
  datatype KeyRecord = KeyRecord(first: nat, outcome: Outcome)
  datatype Request = Request(attempt: nat, amount: int, recipient: string, sent: nat)

  /** Payments made, the idempotency record of each job's key, requests under way, the answer
      each attempt got, and which of the answers were refusals that no key records. */
  datatype Provider = Provider(
    payments: seq<Payment>, keys: map<nat, KeyRecord>, network: set<Request>, answers: map<nat, Outcome>,
    unrecorded: set<nat>)

  /** What was found out about a job, with the job as it was when the question was asked. */
  datatype Read = Read(job: nat, asked: Job, status: Option<Status>)

  /** What the serial worker is waiting for. */
  datatype Task =
    | Idle
    | Posting(attempt: nat, snapshot: Job)
    | Confirming(job: nat, snapshot: Job)
    | Reading(found: seq<Read>)
    | Asking(row: string, commission: nat, paid: nat)

  /** `attempts[a]` is the job attempt a was made for; `known` are the jobs the worker has in
      hand, as they were when it read or made them. */
  datatype World = World(
    now: nat, attempts: seq<nat>, book: Book, provider: Provider, task: Task, known: map<nat, Job>)

  datatype Action =
    // time, the provider, and crashes
    | Tick(ms: nat)
    | Process(request: Request, accept: bool, code: nat)
    | Refuse(request: Request, code: nat)
    | Progress(payment: nat, status: Status)
    | Crash
    // operators
    | AddMember(member: Member)
    | OperatorRecord(owner: string, source: Source, kind: Kind, amount: int, period: nat, text: string, note: string)
    | OperatorReverse(entry: nat, note: string)
    | CreditRebate(owner: string, period: nat, cents: nat)
    | AssessFees(current: nat)
    // the worker: payouts
    | LoadJobs
    | Admit(owner: string, cycle: nat, recipient: string, account: string)
    | Attempt(job: nat)
    | TakeAnswer
    | Confirm
    | GiveUp(message: string)
    | BeginReading
    | ReadStatus(job: nat)
    | FailToRead(job: nat)
    | CommitReads(at: nat, message: string)
    // the worker: commission rows
    | AdmitPurchase(id: string, owner: string, purchase: Purchase, own: Option<nat>, active: nat, period: nat)
    | AskRefunds(row: string)
    | AdjustRefunds(refunded: nat, disputed: bool)
    | CorrectRecordedRate(row: string, owner: string, rate: nat)

  // ---------------------------------------------------------------- the provider

  /** The provider handles one request under its key. */
  function ProcessRequest(w: World, r: Request, accept: bool, code: nat): Provider
    requires r.attempt < |w.attempts|
  {
    var p := w.provider;
    var key := w.attempts[r.attempt];
    var network := p.network - {r};
    if key in p.keys && w.now < p.keys[key].first + REPLAY then
      p.(network := network, answers := p.answers[r.attempt := p.keys[key].outcome], unrecorded := p.unrecorded - {r.attempt})
    else
      var outcome := if accept then Created(|p.payments|) else Declined(code);
      Provider(if accept then p.payments + [Payment(key, r.amount, r.recipient, Processing)] else p.payments,
               p.keys[key := KeyRecord(w.now, outcome)], network, p.answers[r.attempt := outcome], p.unrecorded - {r.attempt})
  }

  /** The provider refuses a request without looking at its key. */
  function RefuseRequest(p: Provider, r: Request, code: nat): Provider {
    p.(network := p.network - {r}, answers := p.answers[r.attempt := Declined(code)], unrecorded := p.unrecorded + {r.attempt})
  }

  /** A request that the provider may still handle. */
  predicate Underway(w: World, r: Request) {
    r in w.provider.network && r.attempt < |w.attempts| && w.now < r.sent + LIFETIME
  }

  predicate Live(p: Payment) { p.status in {Processing, Posted} }

  // ---------------------------------------------------------------- the worker

  /** payoutIdentity(): what must not change between a question and its answer. */
  predicate SameIdentity(a: Job, b: Job) {
    SameDetails(a, b) && a.stripeId == b.stripeId
  }

  predicate SameDetails(a: Job, b: Job) {
    && a.owner == b.owner && a.cycle == b.cycle && a.recipient == b.recipient && a.account == b.account
    && a.amount == b.amount && a.allocations == b.allocations && a.created == b.created
  }

  /** A job whose identity changed is handed over to review. */
  function MarkConflict(b: Book, j: nat): Book
    requires j < |b.jobs|
  {
    b.(jobs := b.jobs[j := b.jobs[j].(status := NeedsReview, conflict := true, error := Some("payout identity changed"))])
  }

  /** submit() up to its first await: refuse, hand over to review, or send. */
  function BeginAttempt(w: World, j: nat): World
    requires j < |w.book.jobs| && j in w.known
  {
    var job, current := w.known[j], w.book.jobs[j];
    if current.stripeId.Some? || current.status != Submitting || current.conflict then w
    else if !SameIdentity(current, job) then w.(book := MarkConflict(w.book, j))
    else if w.now < job.created || w.now - job.created > CUTOFF then
      w.(book := w.book.(jobs := w.book.jobs[j := current.(status := NeedsReview, error := Some("unknown submission outcome"))]))
    else
      var a := |w.attempts|;
      w.(attempts := w.attempts + [j],
         provider := w.provider.(network := w.provider.network + {Request(a, job.amount, job.recipient, w.now)}),
         task := Posting(a, job))
  }

  /** Whether the transaction that stores an accepted payment finds the job it submitted. */
  predicate Stores(b: Book, j: nat, snapshot: Job)
    requires j < |b.jobs|
  {
    SameIdentity(b.jobs[j], snapshot) && b.jobs[j].status == Submitting
  }

  function StoreAccepted(b: Book, j: nat, snapshot: Job, payment: nat): Book
    requires j < |b.jobs|
  {
    var job := b.jobs[j];
    if Stores(b, j, snapshot) then b.(jobs := b.jobs[j := job.(stripeId := Some(payment))])
    else
      b.(jobs := b.jobs[j := job.(status := NeedsReview, conflict := true, error := Some("payout identity changed"),
                                  stripeId := if job.stripeId.Some? then job.stripeId else Some(payment))])
  }

  function Noted(b: Book, j: nat, at: nat, message: string): Book
    requires j < |b.jobs|
  {
    b.(jobs := b.jobs[j := b.jobs[j].(checked := at, error := Some(message))])
  }

  /** jobError(). */
  function NoteError(b: Book, j: nat, expected: Job, at: nat, message: string): Book
    requires j < |b.jobs|
  {
    if b.jobs[j].conflict then b
    else if !SameIdentity(b.jobs[j], expected) then MarkConflict(b, j)
    else Noted(b, j, at, message)
  }

  /** The settlement of one status; a throw is noted on the job. */
  function SettleOrNote(b: Book, j: nat, status: Status, at: nat): Book
    requires j < |b.jobs|
  {
    var r := SettleInState(b, j, status, at);
    if r.Settled? then r.book else Noted(b, j, at, "payout ledger settlement needs review")
  }

  /** settle(). */
  function SettleBook(b: Book, j: nat, expected: Job, status: Status, at: nat): Book
    requires j < |b.jobs|
  {
    if !Recognised(status) then b
    else if !SameIdentity(b.jobs[j], expected) then MarkConflict(b, j)
    else SettleOrNote(b, j, status, at)
  }

  /** The answer of a submission: a payment is stored and then confirmed, a refusal is noted
      and, if it is definitive, settles the job as failed. */
  function TakeAnswerOf(w: World): World
    requires w.task.Posting? && w.task.attempt < |w.attempts| && w.task.attempt in w.provider.answers
    requires w.attempts[w.task.attempt] < |w.book.jobs|
  {
    var j, job := w.attempts[w.task.attempt], w.task.snapshot;
    match w.provider.answers[w.task.attempt]
    case Created(payment) =>
      var stored := job.(stripeId := Some(payment));
      if Stores(w.book, j, job)
      then w.(book := StoreAccepted(w.book, j, job, payment), task := Confirming(j, stored), known := w.known[j := stored])
      else w.(book := StoreAccepted(w.book, j, job, payment), task := Idle)
    case Declined(code) =>
      var noted := NoteError(w.book, j, job, w.now, "request declined");
      w.(book := if code in DEFINITIVE then SettleBook(noted, j, job, Failed, w.now) else noted, task := Idle)
  }

  /** A status read: an answer for another amount or recipient is an error. */
  function StatusOf(w: World, asked: Job): Option<Status> {
    if asked.stripeId.None? || asked.stripeId.value >= |w.provider.payments| then None
    else
      var p := w.provider.payments[asked.stripeId.value];
      if p.amount != asked.amount || p.recipient != asked.recipient then None else Some(p.status)
  }

  /** The read behind an accepted submission. */
  function ConfirmOf(w: World): World
    requires w.task.Confirming? && w.task.job < |w.book.jobs|
  {
    var j, job := w.task.job, w.task.snapshot;
    var status := StatusOf(w, job);
    w.(book := if status.None? then NoteError(w.book, j, job, w.now, "payout identity mismatch")
               else SettleBook(w.book, j, job, status.value, w.now),
       task := Idle)
  }

  /** What a reconciliation transaction does with one outcome. */
  function CommitOne(b: Book, r: Read, at: nat, message: string): Book {
    if r.job >= |b.jobs| then b
    else if !SameIdentity(b.jobs[r.job], r.asked) then MarkConflict(b, r.job)
    else if r.status.None? then Noted(b, r.job, at, message)
    else SettleOrNote(b, r.job, r.status.value, at)
  }

  /** One reconciliation transaction over all collected outcomes, in order. */
  function CommitAll(b: Book, found: seq<Read>, at: nat, message: string): Book {
    if found == [] then b
    else CommitOne(CommitAll(b, found[..|found| - 1], at, message), found[|found| - 1], at, message)
  }

  // ---------------------------------------------------------------- one action

  /** What an action does; an action that is not possible now changes nothing. */
  function Perform(w: World, a: Action): World {
    match a
    case Tick(ms) => w.(now := w.now + ms)
    case Process(r, accept, code) =>
      if Underway(w, r) then w.(provider := ProcessRequest(w, r, accept, code)) else w
    case Refuse(r, code) =>
      if Underway(w, r) then w.(provider := RefuseRequest(w.provider, r, code)) else w
    case Progress(p, status) =>
      if p < |w.provider.payments| && Live(w.provider.payments[p]) && Recognised(status)
      then w.(provider := w.provider.(payments := w.provider.payments[p := w.provider.payments[p].(status := status)])) else w
    case Crash => w.(task := Idle, known := map[])
    case AddMember(member) => w.(book := w.book.(members := w.book.members + [member]))
    case OperatorRecord(owner, source, kind, amount, period, text, note) =>
      var r := Record(w.book, owner, source, kind, amount, period, text, note);
      if r.Appended? then w.(book := r.book) else w
    case OperatorReverse(entry, note) =>
      var r := Reverse(w.book, entry, note);
      if r.Appended? then w.(book := r.book) else w
    case CreditRebate(owner, period, cents) =>
      w.(book := w.book.(entries := w.book.entries +
        [Entry(|w.book.entries|, owner, Exchange, Earning, cents, period, Rebate(period, owner), "", false, None)]))
    case AssessFees(current) =>
      var r := AssessHostingFees(w.book, current);
      if r.Some? then w.(book := r.value) else w
    case LoadJobs => if w.task.Idle? then w.(known := map j | 0 <= j < |w.book.jobs| :: w.book.jobs[j]) else w
    case Admit(owner, cycle, recipient, account) =>
      if w.task.Idle? then
        var b := AdmitPayout(w.book, owner, cycle, recipient, account, w.now);
        w.(book := b, known := if |b.jobs| > |w.book.jobs| then w.known[|w.book.jobs| := b.jobs[|w.book.jobs|]] else w.known)
      else w
    case Attempt(j) => if w.task.Idle? && j < |w.book.jobs| && j in w.known then BeginAttempt(w, j) else w
    case TakeAnswer =>
      if w.task.Posting? && w.task.attempt < |w.attempts| && w.task.attempt in w.provider.answers
         && w.attempts[w.task.attempt] < |w.book.jobs|
      then TakeAnswerOf(w) else w
    case Confirm => if w.task.Confirming? && w.task.job < |w.book.jobs| then ConfirmOf(w) else w
    case GiveUp(message) =>
      if w.task.Posting? && w.task.attempt < |w.attempts| && w.attempts[w.task.attempt] < |w.book.jobs|
      then w.(book := NoteError(w.book, w.attempts[w.task.attempt], w.task.snapshot, w.now, message), task := Idle)
      else if w.task.Confirming? && w.task.job < |w.book.jobs|
      then w.(book := NoteError(w.book, w.task.job, w.task.snapshot, w.now, message), task := Idle)
      else w
    case BeginReading => if w.task.Idle? then w.(task := Reading([])) else w
    case ReadStatus(j) =>
      if w.task.Reading? && j in w.known && w.known[j].stripeId.Some?
      then w.(task := Reading(w.task.found + [Read(j, w.known[j], StatusOf(w, w.known[j]))])) else w
    case FailToRead(j) =>
      if w.task.Reading? && j in w.known && w.known[j].stripeId.Some?
      then w.(task := Reading(w.task.found + [Read(j, w.known[j], None)])) else w
    case CommitReads(at, message) =>
      if w.task.Reading? && at <= w.now then w.(book := CommitAll(w.book, w.task.found, at, message), task := Idle) else w
    case AdmitPurchase(id, owner, purchase, own, active, period) =>
      if w.task.Idle? && Admissible(purchase) && AdmissionRate(own, active) <= 100
      then w.(book := AdmitRow(w.book, id, purchase.Checkout?, owner, PaidAmount(purchase), Basis(purchase),
                               AdmissionRate(own, active), period)) else w
    case AskRefunds(row) =>
      if w.task.Idle? && row in w.book.rows
      then w.(task := Asking(row, w.book.rows[row].commission, w.book.rows[row].paid)) else w
    case AdjustRefunds(refunded, disputed) =>
      if w.task.Asking? && w.task.row in w.book.rows && w.book.rows[w.task.row].paid > 0 && w.task.paid > 0
      then w.(book := AdjustRow(w.book, w.task.row, w.task.commission, w.task.paid, refunded, disputed), task := Idle) else w
    case CorrectRecordedRate(row, owner, rate) =>
      if w.task.Idle? && rate <= 100 && (row in w.book.rows ==> w.book.rows[row].paid > 0) then
        var r := CorrectRate(w.book, row, owner, rate);
        if r.Some? then w.(book := r.value) else w
      else w
  }

  function Run(w: World, actions: seq<Action>): World {
    if actions == [] then w else Perform(Run(w, actions[..|actions| - 1]), actions[|actions| - 1])
  }

  function Start(now: nat): World {
    World(now, [], Book([], [], [], map[]), Provider([], map[], {}, map[], {}), Idle, map[])
  }

  // ---------------------------------------------------------------- the invariants

  predicate JobSafe(w: World, j: nat)
    requires j < |w.book.jobs|
  {
    var job := w.book.jobs[j];
    && job.created <= w.now
    && (job.stripeId.Some? ==>
          job.stripeId.value < |w.provider.payments| && w.provider.payments[job.stripeId.value].job == j)
  }

  predicate PaymentSafe(w: World, p: nat)
    requires p < |w.provider.payments|
  {
    var pay := w.provider.payments[p];
    && pay.job < |w.book.jobs| && pay.job in w.provider.keys
    && w.provider.keys[pay.job].outcome == Created(p)
    && pay.amount == w.book.jobs[pay.job].amount && pay.recipient == w.book.jobs[pay.job].recipient
    && Recognised(pay.status)
  }

  predicate KeySafe(w: World, key: nat)
    requires key in w.provider.keys
  {
    var k := w.provider.keys[key];
    && key < |w.book.jobs| && w.book.jobs[key].created <= k.first <= w.now
    && (k.outcome.Created? ==> k.outcome.payment < |w.provider.payments| && w.provider.payments[k.outcome.payment].job == key)
  }

  predicate RequestSafe(w: World, r: Request) {
    && r.attempt < |w.attempts| && w.attempts[r.attempt] < |w.book.jobs|
    && var job := w.book.jobs[w.attempts[r.attempt]];
       r.amount == job.amount && r.recipient == job.recipient
       && job.created <= r.sent <= job.created + CUTOFF && r.sent <= w.now
  }

  /** An answer is the recorded outcome of the job's key, or an unrecorded refusal. */
  predicate AnswerSafe(w: World, a: nat)
    requires a in w.provider.answers
  {
    && a < |w.attempts|
    && (if a in w.provider.unrecorded then w.provider.answers[a].Declined?
        else w.attempts[a] in w.provider.keys && w.provider.keys[w.attempts[a]].outcome == w.provider.answers[a])
  }

  /** A job in hand is still the job in the book; at most its payment has become known. */
  predicate KnownSafe(w: World, j: nat)
    requires j in w.known
  {
    && j < |w.book.jobs| && SameDetails(w.known[j], w.book.jobs[j])
    && (w.known[j].stripeId.Some? ==> w.known[j].stripeId == w.book.jobs[j].stripeId)
  }

  predicate ReadSafe(w: World, r: Read) {
    && r.job < |w.book.jobs| && SameIdentity(w.book.jobs[r.job], r.asked) && r.asked.stripeId.Some?
    && var p := r.asked.stripeId.value;
       p < |w.provider.payments|
       && (r.status.Some? && Closing(r.status.value) ==> !Live(w.provider.payments[p]))
  }

  predicate TaskSafe(w: World) {
    match w.task
    case Idle => true
    case Posting(a, snapshot) =>
      a < |w.attempts| && w.attempts[a] < |w.book.jobs| && SameIdentity(w.book.jobs[w.attempts[a]], snapshot)
      && w.book.jobs[w.attempts[a]].status == Submitting && snapshot.stripeId.None?
    case Confirming(j, snapshot) =>
      j < |w.book.jobs| && SameIdentity(w.book.jobs[j], snapshot) && snapshot.stripeId.Some?
    case Reading(found) => forall r | r in found :: ReadSafe(w, r)
    case Asking(row, commission, paid) =>
      row in w.book.rows && w.book.rows[row].commission == commission && w.book.rows[row].paid == paid
  }

  /** Jobs, payments, keys, requests, answers and what the worker has in hand agree with each other. */
  predicate Linked(w: World) {
    && (forall a | 0 <= a < |w.attempts| :: w.attempts[a] < |w.book.jobs|)
    && (forall j: nat | j < |w.book.jobs| :: JobSafe(w, j))
    && (forall p: nat | p < |w.provider.payments| :: PaymentSafe(w, p))
    && (forall key | key in w.provider.keys :: KeySafe(w, key))
    && (forall r | r in w.provider.network :: RequestSafe(w, r))
    && (forall a | a in w.provider.answers :: AnswerSafe(w, a))
    && (forall j | j in w.known :: KnownSafe(w, j))
  }

  /** What every run keeps. */
  ghost predicate Sound(w: World) { Valid(w.book) && Linked(w) && TaskSafe(w) }

  /** No payment for job j may be live unless the job's money is still held or booked as paid. */
  predicate Covered(job: Job) { !((job.released && !job.paid) || job.returned) }

  /** Job j has no live payment and will get none: what its key recorded is no live payment,
      and an unused key has no request that may still be handled. */
  predicate Gone(w: World, j: nat) {
    if j in w.provider.keys then
      w.provider.keys[j].outcome.Created? ==>
        w.provider.keys[j].outcome.payment < |w.provider.payments|
        && !Live(w.provider.payments[w.provider.keys[j].outcome.payment])
    else forall r | r in w.provider.network :: Underway(w, r) ==> w.attempts[r.attempt] != j
  }

  /** Money is given back only for payments that are gone. */
  predicate AllCovered(w: World) {
    forall j: nat | j < |w.book.jobs| && !Covered(w.book.jobs[j]) :: Gone(w, j)
  }

  /** The worker takes a definitive refusal that no key records, for a job whose payment is
      live or may still be made. */
  predicate Reckless(w: World, a: Action) {
    && a.TakeAnswer? && w.task.Posting? && w.task.attempt < |w.attempts| && w.task.attempt in w.provider.answers
    && w.task.attempt in w.provider.unrecorded
    && w.provider.answers[w.task.attempt].Declined? && w.provider.answers[w.task.attempt].code in DEFINITIVE
    && !Gone(w, w.attempts[w.task.attempt])
  }

  /** No step of the run is reckless. */
  predicate Careful(w: World, actions: seq<Action>) {
    actions == []
    || (Careful(w, actions[..|actions| - 1]) && !Reckless(Run(w, actions[..|actions| - 1]), actions[|actions| - 1]))
  }

  ghost predicate Safe(w: World) { Sound(w) && AllCovered(w) }
}
