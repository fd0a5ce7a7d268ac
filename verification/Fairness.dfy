/** Recovery is fair: no reserved job is starved by the batch limit. */
module Fairness {
  import B = Book
  import opened Hub
  import opened HubSafety
  import opened Reconcile

  /** The jobs one recovery pass attempts. */
  function Batch(jobs: seq<B.Job>): seq<nat> { Take(Ordered(jobs, Unsettled()), RECOVERY_LIMIT) }

  /** What one pass does, with the clock past every earlier check and no admissions: each
      attempted job leaves the recoverable set or carries a later check than every job had;
      no other recoverable job changes and none appears. */
  ghost predicate Pass(jobs: seq<B.Job>, after: seq<B.Job>) {
    && |after| == |jobs|
    && (forall j | 0 <= j < |jobs| && j in Batch(jobs) && Recoverable(after[j]) ::
          forall k | 0 <= k < |jobs| :: jobs[k].checked < after[j].checked)
    && (forall j | 0 <= j < |jobs| && j !in Batch(jobs) && Recoverable(after[j]) ::
          Recoverable(jobs[j]) && after[j].checked == jobs[j].checked)
    && (forall j | 0 <= j < |jobs| && j !in Batch(jobs) && Recoverable(jobs[j]) :: Recoverable(after[j]))
  }

  ghost function Ahead(jobs: seq<B.Job>, k: nat): set<nat>
    requires k < |jobs|
  {
    set i | 0 <= i < |jobs| && Recoverable(jobs[i]) && Precedes(jobs, i, k)
  }

  function SetOf(xs: seq<nat>): set<nat> { set x | x in xs }

  lemma {:induction false} SetOfSorted(jobs: seq<B.Job>, xs: seq<nat>)
    requires forall i | 0 <= i < |xs| :: xs[i] < |jobs|
    requires Sorted(jobs, xs)
    ensures |SetOf(xs)| == |xs|
  {
    if xs != [] {
      var n := |xs| - 1;
      assert xs == xs[..n] + [xs[n]];
      SetOfSorted(jobs, xs[..n]);
      forall i | 0 <= i < n
        ensures xs[..n][i] != xs[n]
      {
        assert Precedes(jobs, xs[i], xs[n]);
      }
      assert SetOf(xs) == SetOf(xs[..n]) + {xs[n]};
    } else {
      assert SetOf(xs) == {};
    }
  }

  /** A recoverable job that is left out of a pass has a full batch ahead of it, and the pass
      takes that batch out of the way. */
  lemma {:induction false} LeftOutAdvances(jobs: seq<B.Job>, after: seq<B.Job>, k: nat)
    requires Pass(jobs, after) && k < |jobs| && Recoverable(jobs[k]) && k !in Batch(jobs)
    ensures Recoverable(after[k])
    ensures |Ahead(after, k)| + RECOVERY_LIMIT <= |Ahead(jobs, k)|
  {
    var order := Ordered(jobs, Unsettled());
    assert jobs == jobs[..|jobs|];
    OrderedSpec(jobs, jobs, Unsettled());
    var batch := Batch(jobs);
    var at :| 0 <= at < |order| && order[at] == k;
    assert |batch| == RECOVERY_LIMIT && at >= RECOVERY_LIMIT;
    forall x | x in SetOf(batch)
      ensures x in Ahead(jobs, k)
    {
      var i :| 0 <= i < |batch| && batch[i] == x;
      assert order[i] == x && x in order;
      assert Precedes(jobs, order[i], order[at]);
    }
    SetOfSorted(jobs, batch);
    forall x: nat | x < |jobs| && x in batch
      ensures x !in Ahead(after, k)
    {
      if Recoverable(after[x]) {
        assert jobs[k].checked < after[x].checked;
      }
    }
    assert Ahead(after, k) <= Ahead(jobs, k) - SetOf(batch);
    Smaller(Ahead(after, k), Ahead(jobs, k) - SetOf(batch));
    assert |Ahead(jobs, k) - SetOf(batch)| == |Ahead(jobs, k)| - |SetOf(batch)|;
  }

  lemma {:induction false} Smaller(a: set<nat>, b: set<nat>)
    requires a <= b
    ensures |a| <= |b|
  {
    if x :| x in a {
      Smaller(a - {x}, b - {x});
    }
  }

  ghost predicate Passes(history: seq<seq<B.Job>>) {
    forall i | 0 <= i < |history| - 1 :: Pass(history[i], history[i + 1])
  }

  lemma {:induction false} NotAttemptedYet(history: seq<seq<B.Job>>, k: nat, p: nat)
    requires Passes(history) && p < |history| && k < |history[0]| && Recoverable(history[0][k])
    requires forall i | 0 <= i < p :: k !in Batch(history[i])
    ensures k < |history[p]| && Recoverable(history[p][k])
    ensures |Ahead(history[p], k)| + RECOVERY_LIMIT * p <= |Ahead(history[0], k)|
  {
    if p > 0 {
      NotAttemptedYet(history, k, p - 1);
      assert Pass(history[p - 1], history[p - 1 + 1]);
      LeftOutAdvances(history[p - 1], history[p], k);
    }
  }

  ghost function RecoverableSet(jobs: seq<B.Job>): set<nat> {
    set i | 0 <= i < |jobs| && Recoverable(jobs[i])
  }

  lemma {:induction false} WaitingIsBounded(history: seq<seq<B.Job>>, k: nat, p: nat)
    requires Passes(history) && p < |history| && k < |history[0]| && Recoverable(history[0][k])
    requires forall i | 0 <= i < p :: k !in Batch(history[i])
    ensures RECOVERY_LIMIT * p < |RecoverableSet(history[0])|
  {
    NotAttemptedYet(history, k, p);
    var all := RecoverableSet(history[0]);
    assert k in all;
    assert Ahead(history[0], k) <= all - {k};
    Smaller(Ahead(history[0], k), all - {k});
  }

  /** Among n recoverable jobs each one is attempted within ceil(n / 25) passes. */
  lemma {:induction false} AttemptedInTime(history: seq<seq<B.Job>>, k: nat, n: nat)
    requires Passes(history) && history != [] && k < |history[0]| && Recoverable(history[0][k])
    requires n == |RecoverableSet(history[0])|
    requires |history| > (n + RECOVERY_LIMIT - 1) / RECOVERY_LIMIT
    ensures exists i :: 0 <= i < (n + RECOVERY_LIMIT - 1) / RECOVERY_LIMIT && k in Batch(history[i])
  {
    var p := (n + RECOVERY_LIMIT - 1) / RECOVERY_LIMIT;
    if forall i | 0 <= i < p :: k !in Batch(history[i]) {
      WaitingIsBounded(history, k, p);
    }
  }

  // ---------------------------------------------------------------- one recovery

  /** How the provider and the network treat one attempt that starts `delay` + 1 ms later:
      whether it is handled and how, whether its answer arrives, and whether an accepted
      payment can be read back. */
  datatype Plan = Plan(delay: nat, handled: bool, accept: bool, code: nat, heard: bool, readBack: bool)

  /** The request just sent is handled, if the plan says so. */
  function Handled(w: World, plan: Plan): World {
    if !w.task.Posting? || !plan.handled then w
    else
      var job := w.task.snapshot;
      Perform(w, Process(Request(w.task.attempt, job.amount, job.recipient, w.now), plan.accept, plan.code))
  }

  /** The attempt is started and, if the plan says so, handled. */
  function Begun(w: World, j: nat, plan: Plan): World {
    Handled(Perform(Perform(w, Tick(plan.delay + 1)), Attempt(j)), plan)
  }

  /** Its answer is taken and, if a payment was made, its status is read back. */
  function Answered(w: World, readBack: bool): World {
    var taken := Perform(w, TakeAnswer);
    if !taken.task.Confirming? then taken else Perform(taken, if readBack then Confirm else GiveUp("unreachable"))
  }

  /** One submit() of the recovery loop, in the steps of the Hub: start, the provider's
      part, and the end of the attempt. */
  function RecoverOne(w: World, j: nat, plan: Plan): World {
    var begun := Begun(w, j, plan);
    if !begun.task.Posting? then begun
    else if !plan.handled || !plan.heard then Perform(begun, GiveUp("unreachable"))
    else Answered(begun, plan.readBack)
  }

  /** What every action keeps, a whole submit() keeps. */
  lemma {:induction false} RecoverOneKeeps(keeps: World -> bool, w: World, j: nat, plan: Plan)
    requires keeps(w) && forall v: World, a: Action :: keeps(v) ==> keeps(Perform(v, a))
    ensures keeps(RecoverOne(w, j, plan))
  {
  }

  predicate AllKnown(w: World) { forall j: nat | j < |w.book.jobs| :: j in w.known }

  /** How an attempt ends: the worker is idle, only job j changed, and if it may be attempted
      again it was checked now. */
  predicate Ends(w: World, after: World, j: nat)
    requires j < |w.book.jobs|
  {
    && after.task.Idle? && after.now == w.now && |after.book.jobs| == |w.book.jobs|
    && w.known.Keys <= after.known.Keys
    && (forall k | 0 <= k < |w.book.jobs| && k != j :: after.book.jobs[k] == w.book.jobs[k])
    && (Recoverable(after.book.jobs[j]) ==> after.book.jobs[j].checked == w.now)
  }

  lemma {:induction false} AttemptEffect(w: World, j: nat)
    requires w.task.Idle? && j < |w.book.jobs| && j in w.known
    ensures var r := BeginAttempt(w, j);
            && r.now == w.now && r.known == w.known
            && (if r.task.Posting? then
                  r.book == w.book && r.task.attempt < |r.attempts| && r.attempts[r.task.attempt] == j
                  && Request(r.task.attempt, r.task.snapshot.amount, r.task.snapshot.recipient, r.now) in r.provider.network
                else
                  r.task.Idle? && |r.book.jobs| == |w.book.jobs| && !Recoverable(r.book.jobs[j])
                  && forall k | 0 <= k < |w.book.jobs| && k != j :: r.book.jobs[k] == w.book.jobs[k])
  {
  }

  lemma {:induction false} HandledEffect(w: World, plan: Plan)
    requires w.task.Posting? ==>
               w.task.attempt < |w.attempts|
               && Request(w.task.attempt, w.task.snapshot.amount, w.task.snapshot.recipient, w.now) in w.provider.network
    ensures var after := Handled(w, plan);
            && after == w.(provider := after.provider)
            && (w.task.Posting? && plan.handled ==> w.task.attempt in after.provider.answers)
  {
  }

  lemma {:induction false} BegunInSteps(w: World, j: nat, plan: Plan)
    requires w.task.Idle? && j < |w.book.jobs| && j in w.known
    ensures Begun(w, j, plan) == Handled(BeginAttempt(w.(now := w.now + plan.delay + 1), j), plan)
  {
    assert Perform(Perform(w, Tick(plan.delay + 1)), Attempt(j)) == BeginAttempt(w.(now := w.now + plan.delay + 1), j);
  }

  lemma {:induction false} BegunEffect(w: World, j: nat, plan: Plan)
    requires w.task.Idle? && j < |w.book.jobs| && j in w.known
    ensures var r := Begun(w, j, plan);
            && r.now == w.now + plan.delay + 1 && r.known == w.known
            && (if r.task.Posting? then
                  r.book == w.book && r.task.attempt < |r.attempts| && r.attempts[r.task.attempt] == j
                  && (plan.handled ==> r.task.attempt in r.provider.answers)
                else
                  r.task.Idle? && |r.book.jobs| == |w.book.jobs| && !Recoverable(r.book.jobs[j])
                  && forall k | 0 <= k < |w.book.jobs| && k != j :: r.book.jobs[k] == w.book.jobs[k])
  {
    var ticked := w.(now := w.now + plan.delay + 1);
    AttemptEffect(ticked, j);
    BegunInSteps(w, j, plan);
    HandledEffect(BeginAttempt(ticked, j), plan);
  }

  /** A transaction touched job j only, and left it checked at `at` or not recoverable. */
  predicate Touches(b: B.Book, after: B.Book, j: nat, at: nat)
    requires j < |b.jobs|
  {
    && |after.jobs| == |b.jobs| && (forall k | 0 <= k < |b.jobs| && k != j :: after.jobs[k] == b.jobs[k])
    && (Recoverable(after.jobs[j]) ==> after.jobs[j].checked == at)
  }

  lemma {:induction false} NoteTouches(b: B.Book, j: nat, expected: B.Job, at: nat, message: string)
    requires j < |b.jobs|
    ensures Touches(b, NoteError(b, j, expected, at, message), j, at)
  {
  }

  lemma {:induction false} StateTouches(b: B.Book, j: nat, status: B.Status, at: nat)
    requires j < |b.jobs| && (Recoverable(b.jobs[j]) ==> b.jobs[j].checked == at)
    ensures Touches(b, SettleOrNote(b, j, status, at), j, at)
  {
    var r := B.SettleInState(b, j, status, at);
    if r.Settled? && B.Settleable(b.jobs[j], status) {
      assert r.book.jobs == b.jobs[j := B.SettledJob(b.jobs[j], status, at)];
    }
  }

  lemma {:induction false} SettleTouches(b: B.Book, j: nat, expected: B.Job, status: B.Status, at: nat)
    requires j < |b.jobs| && (Recoverable(b.jobs[j]) ==> b.jobs[j].checked == at)
    ensures Touches(b, SettleBook(b, j, expected, status, at), j, at)
  {
    StateTouches(b, j, status, at);
  }

  /** The answer touches job j only. */
  lemma {:induction false} AnswerEffect(w: World, j: nat)
    requires w.task.Posting? && w.task.attempt < |w.attempts| && w.attempts[w.task.attempt] == j
    requires w.task.attempt in w.provider.answers && j < |w.book.jobs|
    ensures var after := TakeAnswerOf(w);
            && after.now == w.now && w.known.Keys <= after.known.Keys && Touches(w.book, after.book, j, w.now)
            && (if after.task.Confirming? then after.task.job == j && after.book.jobs[j].stripeId.Some? else after.task.Idle?)
  {
    if w.provider.answers[w.task.attempt].Declined? {
      NoteTouches(w.book, j, w.task.snapshot, w.now, "request declined");
      SettleTouches(NoteError(w.book, j, w.task.snapshot, w.now, "request declined"), j, w.task.snapshot, B.Failed, w.now);
    }
  }

  /** Reading an accepted payment back, or failing to, touches its job only. */
  lemma {:induction false} ConfirmEffect(w: World, j: nat, readBack: bool)
    requires w.task.Confirming? && w.task.job == j && j < |w.book.jobs| && w.book.jobs[j].stripeId.Some?
    ensures Ends(w, Perform(w, if readBack then Confirm else GiveUp("unreachable")), j)
  {
    var status := StatusOf(w, w.task.snapshot);
    NoteTouches(w.book, j, w.task.snapshot, w.now, "unreachable");
    NoteTouches(w.book, j, w.task.snapshot, w.now, "payout identity mismatch");
    if status.Some? {
      SettleTouches(w.book, j, w.task.snapshot, status.value, w.now);
    }
  }

  lemma {:induction false} GiveUpEffect(w: World, j: nat)
    requires w.task.Posting? && w.task.attempt < |w.attempts| && w.attempts[w.task.attempt] == j && j < |w.book.jobs|
    ensures Ends(w, Perform(w, GiveUp("unreachable")), j)
  {
  }

  lemma {:induction false} AnsweredEffect(w: World, j: nat, readBack: bool)
    requires w.task.Posting? && w.task.attempt < |w.attempts| && w.attempts[w.task.attempt] == j
    requires w.task.attempt in w.provider.answers && j < |w.book.jobs|
    ensures Ends(w, Answered(w, readBack), j)
  {
    AnswerEffect(w, j);
    var taken := Perform(w, TakeAnswer);
    if taken.task.Confirming? {
      ConfirmEffect(taken, j, readBack);
    }
  }

  /** Everything but job j is as it was, and job j left the recoverable set or was checked
      at a new time. */
  predicate OnlyTouched(w: World, after: World, j: nat) {
    && |after.book.jobs| == |w.book.jobs| && after.now > w.now && w.known.Keys <= after.known.Keys && after.task.Idle?
    && (forall k | 0 <= k < |w.book.jobs| && k != j :: after.book.jobs[k] == w.book.jobs[k])
    && (j < |w.book.jobs| && Recoverable(after.book.jobs[j]) ==> after.book.jobs[j].checked > w.now)
  }

  lemma {:induction false} RecoverOneTouches(w: World, j: nat, plan: Plan)
    requires w.task.Idle? && j < |w.book.jobs| && j in w.known
    ensures OnlyTouched(w, RecoverOne(w, j, plan), j)
  {
    BegunEffect(w, j, plan);
    var begun := Begun(w, j, plan);
    if begun.task.Posting? {
      if plan.handled && plan.heard {
        AnsweredEffect(begun, j, plan.readBack);
      } else {
        GiveUpEffect(begun, j);
      }
    }
  }

  // ---------------------------------------------------------------- one pass of the Hub

  /** The recovery loop over the first n jobs of a batch, each treated by `one`. */
  function RecoverAll(one: (World, nat, Plan) -> World, w: World, batch: seq<nat>, plans: seq<Plan>, n: nat): World
    requires n <= |batch| <= |plans|
  {
    if n == 0 then w else one(RecoverAll(one, w, batch, plans, n - 1), batch[n - 1], plans[n - 1])
  }

  /** The jobs in `touched` left the recoverable set or were checked after w; the others are
      as they were. */
  predicate Recovered(w: World, after: World, touched: seq<nat>) {
    && |after.book.jobs| == |w.book.jobs| && after.now >= w.now
    && (forall k: nat | k < |w.book.jobs| && k !in touched :: after.book.jobs[k] == w.book.jobs[k])
    && (forall k: nat | k < |w.book.jobs| && k in touched && Recoverable(after.book.jobs[k]) ::
          after.book.jobs[k].checked > w.now)
  }

  lemma {:induction false} RecoveredPush(w: World, middle: World, after: World, touched: seq<nat>, j: nat)
    requires Recovered(w, middle, touched) && OnlyTouched(middle, after, j) && j < |w.book.jobs|
    ensures Recovered(w, after, touched + [j])
  {
  }

  /** What one recovery keeps and touches, over a batch. */
  lemma {:induction false} RecoverAllKeeps(one: (World, nat, Plan) -> World, keeps: World -> bool,
                                           w: World, batch: seq<nat>, plans: seq<Plan>, n: nat)
    requires keeps(w) && n <= |batch| <= |plans|
    requires forall v: World, j: nat, plan: Plan :: keeps(v) && j < |v.book.jobs| ==>
               keeps(one(v, j, plan)) && OnlyTouched(v, one(v, j, plan), j)
    requires forall i | 0 <= i < |batch| :: batch[i] < |w.book.jobs|
    ensures var after := RecoverAll(one, w, batch, plans, n);
            keeps(after) && Recovered(w, after, batch[..n])
  {
    if n > 0 {
      RecoverAllKeeps(one, keeps, w, batch, plans, n - 1);
      var before := RecoverAll(one, w, batch, plans, n - 1);
      RecoveredPush(w, before, one(before, batch[n - 1], plans[n - 1]), batch[..n - 1], batch[n - 1]);
      assert batch[..n] == batch[..n - 1] + [batch[n - 1]];
    }
  }

  // ---------------------------------------------------------------- no check lies in the future

  predicate CheckedBy(jobs: seq<B.Job>, now: nat) { forall j | 0 <= j < |jobs| :: jobs[j].checked <= now }

  predicate CheckedPast(w: World) { CheckedBy(w.book.jobs, w.now) }

  lemma {:induction false} SettleChecked(b: B.Book, j: nat, status: B.Status, at: nat, now: nat)
    requires j < |b.jobs| && CheckedBy(b.jobs, now) && at <= now
    ensures CheckedBy(SettleOrNote(b, j, status, at).jobs, now)
  {
  }

  lemma {:induction false} CommitChecked(b: B.Book, found: seq<Read>, at: nat, message: string, now: nat)
    requires CheckedBy(b.jobs, now) && at <= now
    ensures CheckedBy(CommitAll(b, found, at, message).jobs, now)
  {
    if found != [] {
      var n := |found| - 1;
      CommitChecked(b, found[..n], at, message, now);
      var front := CommitAll(b, found[..n], at, message);
      if found[n].job < |front.jobs| && found[n].status.Some? {
        SettleChecked(front, found[n].job, found[n].status.value, at, now);
      }
    }
  }

  lemma {:induction false} NoteChecked(b: B.Book, j: nat, expected: B.Job, at: nat, message: string, now: nat)
    requires j < |b.jobs| && CheckedBy(b.jobs, now) && at <= now
    ensures CheckedBy(NoteError(b, j, expected, at, message).jobs, now)
  {
  }

  lemma {:induction false} BookChecked(b: B.Book, j: nat, expected: B.Job, status: B.Status, at: nat, now: nat)
    requires j < |b.jobs| && CheckedBy(b.jobs, now) && at <= now
    ensures CheckedBy(SettleBook(b, j, expected, status, at).jobs, now)
  {
    SettleChecked(b, j, status, at, now);
  }

  lemma {:induction false} RefusalChecked(b: B.Book, j: nat, expected: B.Job, now: nat)
    requires j < |b.jobs| && CheckedBy(b.jobs, now)
    ensures var noted := NoteError(b, j, expected, now, "request declined");
            CheckedBy(noted.jobs, now) && CheckedBy(SettleBook(noted, j, expected, B.Failed, now).jobs, now)
  {
    NoteChecked(b, j, expected, now, "request declined", now);
    BookChecked(NoteError(b, j, expected, now, "request declined"), j, expected, B.Failed, now, now);
  }

  lemma {:induction false} StoredChecked(b: B.Book, j: nat, snapshot: B.Job, payment: nat, now: nat)
    requires j < |b.jobs| && CheckedBy(b.jobs, now)
    ensures CheckedBy(StoreAccepted(b, j, snapshot, payment).jobs, now)
  {
  }

  lemma {:induction false} AnswerChecked(w: World)
    requires CheckedPast(w)
    ensures CheckedPast(Perform(w, TakeAnswer))
  {
    if w.task.Posting? && w.task.attempt < |w.attempts| && w.attempts[w.task.attempt] < |w.book.jobs|
       && w.task.attempt in w.provider.answers {
      var j, job := w.attempts[w.task.attempt], w.task.snapshot;
      match w.provider.answers[w.task.attempt]
      case Created(payment) => StoredChecked(w.book, j, job, payment, w.now);
      case Declined(_) => RefusalChecked(w.book, j, job, w.now);
    }
  }

  lemma {:induction false} ConfirmChecked(w: World)
    requires CheckedPast(w)
    ensures CheckedPast(Perform(w, Confirm))
  {
    if w.task.Confirming? && w.task.job < |w.book.jobs| {
      var status := StatusOf(w, w.task.snapshot);
      NoteChecked(w.book, w.task.job, w.task.snapshot, w.now, "payout identity mismatch", w.now);
      if status.Some? {
        BookChecked(w.book, w.task.job, w.task.snapshot, status.value, w.now, w.now);
      }
    }
  }

  lemma {:induction false} AttemptChecked(w: World, j: nat)
    requires CheckedPast(w) && j < |w.book.jobs| && j in w.known
    ensures CheckedPast(BeginAttempt(w, j))
  {
  }

  lemma {:induction false} AdmitChecked(b: B.Book, owner: string, cycle: nat, recipient: string, account: string,
                                        now: nat)
    requires CheckedBy(b.jobs, now)
    ensures CheckedBy(B.AdmitPayout(b, owner, cycle, recipient, account, now).jobs, now)
  {
  }

  lemma {:induction false} GiveUpChecked(w: World, message: string)
    requires CheckedPast(w)
    ensures CheckedPast(Perform(w, GiveUp(message)))
  {
    if w.task.Posting? && w.task.attempt < |w.attempts| && w.attempts[w.task.attempt] < |w.book.jobs| {
      NoteChecked(w.book, w.attempts[w.task.attempt], w.task.snapshot, w.now, message, w.now);
    } else if w.task.Confirming? && w.task.job < |w.book.jobs| {
      NoteChecked(w.book, w.task.job, w.task.snapshot, w.now, message, w.now);
    }
  }

  /** Every action leaves every check in the past. */
  lemma {:induction false} StepChecked(w: World, a: Action)
    requires Sound(w) && CheckedPast(w)
    ensures CheckedPast(Perform(w, a))
  {
    if a.TakeAnswer? {
      AnswerChecked(w);
    } else if a.Confirm? {
      ConfirmChecked(w);
    } else if a.CommitReads? {
      if w.task.Reading? && a.at <= w.now {
        CommitChecked(w.book, w.task.found, a.at, a.message, w.now);
      }
    } else if a.Attempt? {
      if w.task.Idle? && a.job < |w.book.jobs| && a.job in w.known {
        AttemptChecked(w, a.job);
      }
    } else if a.Admit? {
      AdmitChecked(w.book, a.owner, a.cycle, a.recipient, a.account, w.now);
    } else if a.GiveUp? {
      GiveUpChecked(w, a.message);
    } else {
      JobsKept(w, a);
    }
  }

  /** The other actions leave the jobs as they are. */
  lemma {:induction false} JobsKept(w: World, a: Action)
    requires Sound(w) && !(a.TakeAnswer? || a.Confirm? || a.CommitReads? || a.Attempt? || a.Admit? || a.GiveUp?)
    ensures Perform(w, a).book.jobs == w.book.jobs && Perform(w, a).now >= w.now
    ensures Perform(w, a).task.Idle? || Perform(w, a).task == w.task || Perform(w, a).task.Asking? || Perform(w, a).task.Reading?
  {
    if OfOperator(a) {
      OperatorLedger(w, a);
    } else if OfRows(a) && !a.AskRefunds? {
      RowLedger(w, a);
    }
  }

  /** The worker is idle and has every job in hand. */
  ghost predicate Ready(w: World) { Sound(w) && CheckedPast(w) && w.task.Idle? && AllKnown(w) }

  /** `Ready` as a value. */
  ghost function AsFunction(): World -> bool { (v: World) => Ready(v) }

  lemma {:induction false} RecoverOneReady(w: World, j: nat, plan: Plan)
    requires AsFunction()(w) && j < |w.book.jobs|
    ensures AsFunction()(RecoverOne(w, j, plan)) && OnlyTouched(w, RecoverOne(w, j, plan), j)
  {
    var keeps := (v: World) => Sound(v) && CheckedPast(v);
    forall v: World, a: Action | keeps(v)
      ensures keeps(Perform(v, a))
    {
      StepSound(v, a);
      StepChecked(v, a);
    }
    RecoverOneKeeps(keeps, w, j, plan);
    RecoverOneTouches(w, j, plan);
  }

  /** One recovery of any ready state leaves a ready state and touches its job only. */
  lemma {:induction false} AllKeep()
    ensures forall v: World, j: nat, plan: Plan :: AsFunction()(v) && j < |v.book.jobs| ==>
              AsFunction()(RecoverOne(v, j, plan)) && OnlyTouched(v, RecoverOne(v, j, plan), j)
  {
    forall v: World, j: nat, plan: Plan | AsFunction()(v) && j < |v.book.jobs|
      ensures AsFunction()(RecoverOne(v, j, plan)) && OnlyTouched(v, RecoverOne(v, j, plan), j)
    {
      RecoverOneReady(v, j, plan);
    }
  }

  /** A recovery loop made of such recoveries is a pass. */
  lemma {:induction false} PassOf(one: (World, nat, Plan) -> World, keeps: World -> bool, w: World, plans: seq<Plan>)
    requires keeps(w) && CheckedPast(w) && |Batch(w.book.jobs)| <= |plans|
    requires forall v: World, j: nat, plan: Plan :: keeps(v) && j < |v.book.jobs| ==>
               keeps(one(v, j, plan)) && OnlyTouched(v, one(v, j, plan), j)
    ensures var batch := Batch(w.book.jobs);
            var after := RecoverAll(one, w, batch, plans, |batch|);
            keeps(after) && Pass(w.book.jobs, after.book.jobs)
  {
    var batch := Batch(w.book.jobs);
    RecoverAllKeeps(one, keeps, w, batch, plans, |batch|);
    assert batch[..|batch|] == batch;
  }

  /** The recovery part of run(): the worker loads the jobs and submits a batch of them. */
  function RecoveryPass(w: World, plans: seq<Plan>): World
    requires |Batch(w.book.jobs)| <= |plans|
  {
    RecoverAll(RecoverOne, Perform(w, LoadJobs), Batch(w.book.jobs), plans, |Batch(w.book.jobs)|)
  }

  /** The recovery loop of the Hub is such a pass, whatever the provider and the network do
      to each attempt. */
  lemma {:induction false} RecoveryIsPass(w: World, plans: seq<Plan>)
    requires Sound(w) && w.task.Idle? && CheckedPast(w) && |Batch(w.book.jobs)| <= |plans|
    ensures var after := RecoveryPass(w, plans);
            Sound(after) && CheckedPast(after) && after.task.Idle? && Pass(w.book.jobs, after.book.jobs)
  {
    var loaded := Perform(w, LoadJobs);
    StepSound(w, LoadJobs);
    StepChecked(w, LoadJobs);
    assert loaded.book == w.book && AllKnown(loaded);
    AllKeep();
    PassOf(RecoverOne, AsFunction(), loaded, plans);
  }
}
