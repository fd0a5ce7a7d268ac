/** Runs of recovery passes with anything but new submissions in between. */
module FairRuns {
  import B = Book
  import opened Hub
  import opened HubSafety
  import opened Reconcile
  import opened Fairness

  // ---------------------------------------------------------------- between two passes

  /** Time, the provider, operators, rows, and reading and committing statuses; no admission
      and no step of a submission. */
  predicate Between(a: Action) { !(a.Admit? || a.Attempt? || a.TakeAnswer? || a.GiveUp?) }

  /** No recoverable job changes, and none appears. */
  predicate Quiet(jobs: seq<B.Job>, after: seq<B.Job>) {
    && |after| == |jobs|
    && forall j | 0 <= j < |jobs| && (Recoverable(jobs[j]) || Recoverable(after[j])) :: after[j] == jobs[j]
  }

  predicate Calm(w: World) { !w.task.Posting? && !w.task.Confirming? }

  lemma {:induction false} OutcomeQuiet(w: World, b: B.Book, r: Read, at: nat, message: string)
    requires ReadSafe(w, r) && SameJobs(w.book.jobs, b.jobs)
    requires SameJobs(b.jobs, CommitOne(b, r, at, message).jobs)
    ensures Quiet(b.jobs, CommitOne(b, r, at, message).jobs)
  {
    var after := CommitOne(b, r, at, message);
    assert b.jobs[r.job].stripeId.Some? && after.jobs[r.job].stripeId.Some?;
    assert forall k | 0 <= k < |b.jobs| && k != r.job :: after.jobs[k] == b.jobs[k];
  }

  /** Committing statuses touches jobs with a known payment only, and those are not recoverable. */
  lemma {:induction false} CommitQuiet(w: World, found: seq<Read>, at: nat, message: string)
    requires Sound(w) && w.task.Idle? && forall r | r in found :: ReadSafe(w, r)
    ensures SameJobs(w.book.jobs, CommitAll(w.book, found, at, message).jobs)
    ensures Quiet(w.book.jobs, CommitAll(w.book, found, at, message).jobs)
  {
    forall r | r in found
      ensures r.job < |w.book.jobs| && SameIdentity(w.book.jobs[r.job], r.asked)
    {
      assert ReadSafe(w, r);
    }
    CommitAllSound(w, found, at, message);
    if found != [] {
      var n := |found| - 1;
      assert found[n] in found && forall r :: r in found[..n] ==> r in found;
      CommitQuiet(w, found[..n], at, message);
      CommitAllSound(w, found[..n], at, message);
      CommitOneSound(w.(book := CommitAll(w.book, found[..n], at, message)), found[n], at, message);
      OutcomeQuiet(w, CommitAll(w.book, found[..n], at, message), found[n], at, message);
    }
  }

  lemma {:induction false} StepQuiet(w: World, a: Action)
    requires Sound(w) && Calm(w) && Between(a)
    ensures Calm(Perform(w, a)) && Quiet(w.book.jobs, Perform(w, a).book.jobs)
  {
    if a.CommitReads? {
      if w.task.Reading? && a.at <= w.now {
        var idle := w.(task := Idle);
        Reframe(w, idle);
        forall r | r in w.task.found ensures ReadSafe(idle, r) { assert ReadSafe(w, r); }
        CommitQuiet(idle, w.task.found, a.at, a.message);
      }
    } else if !a.Confirm? {
      JobsKept(w, a);
    }
  }

  lemma {:induction false} RunQuiet(w: World, actions: seq<Action>)
    requires Sound(w) && CheckedPast(w) && Calm(w) && forall i | 0 <= i < |actions| :: Between(actions[i])
    ensures var after := Run(w, actions);
            Sound(after) && CheckedPast(after) && Calm(after) && Quiet(w.book.jobs, after.book.jobs)
  {
    if actions != [] {
      var n := |actions| - 1;
      RunQuiet(w, actions[..n]);
      var before := Run(w, actions[..n]);
      StepSound(before, actions[n]);
      StepChecked(before, actions[n]);
      StepQuiet(before, actions[n]);
    }
  }

  lemma {:induction false} PassThenQuiet(jobs: seq<B.Job>, middle: seq<B.Job>, after: seq<B.Job>)
    requires Pass(jobs, middle) && Quiet(middle, after)
    ensures Pass(jobs, after)
  {
  }

  // ---------------------------------------------------------------- runs of passes

  /** From a reachable state, recovery passes with any treatment of their attempts, each
      followed by any other steps; the worker is idle when a pass begins. */
  ghost predicate Schedule(ws: seq<World>, plans: seq<seq<Plan>>, between: seq<seq<Action>>) {
    && |ws| == |plans| + 1 && |plans| == |between|
    && (forall i | 0 <= i < |ws| :: ws[i].task.Idle?)
    && (forall i | 0 <= i < |plans| ::
          && |Batch(ws[i].book.jobs)| <= |plans[i]|
          && (forall k | 0 <= k < |between[i]| :: Between(between[i][k]))
          && ws[i + 1] == Run(RecoveryPass(ws[i], plans[i]), between[i]))
  }

  lemma {:induction false} RunChecked(now: nat, actions: seq<Action>)
    ensures CheckedPast(Run(Start(now), actions))
  {
    if actions != [] {
      var n := |actions| - 1;
      RunChecked(now, actions[..n]);
      RunSound(now, actions[..n]);
      StepChecked(Run(Start(now), actions[..n]), actions[n]);
    }
  }

  lemma {:induction false} PassAndMore(w: World, plans: seq<Plan>, more: seq<Action>)
    requires Sound(w) && CheckedPast(w) && w.task.Idle? && |Batch(w.book.jobs)| <= |plans|
    requires forall k | 0 <= k < |more| :: Between(more[k])
    ensures var after := Run(RecoveryPass(w, plans), more);
            Sound(after) && CheckedPast(after) && Pass(w.book.jobs, after.book.jobs)
  {
    RecoveryIsPass(w, plans);
    var passed := RecoveryPass(w, plans);
    RunQuiet(passed, more);
    PassThenQuiet(w.book.jobs, passed.book.jobs, Run(passed, more).book.jobs);
  }

  lemma {:induction false} AllKept(keeps: World -> bool, ws: seq<World>, i: nat)
    requires i < |ws| && keeps(ws[0])
    requires forall k: nat | k < |ws| - 1 && keeps(ws[k]) :: keeps(ws[k + 1])
    ensures keeps(ws[i])
  {
    if i > 0 {
      AllKept(keeps, ws, i - 1);
      assert keeps(ws[i - 1 + 1]);
    }
  }

  lemma {:induction false} OneTurn(ws: seq<World>, plans: seq<seq<Plan>>, between: seq<seq<Action>>, i: nat)
    requires Schedule(ws, plans, between) && i < |plans| && Sound(ws[i]) && CheckedPast(ws[i])
    ensures Sound(ws[i + 1]) && CheckedPast(ws[i + 1]) && Pass(ws[i].book.jobs, ws[i + 1].book.jobs)
  {
    PassAndMore(ws[i], plans[i], between[i]);
  }

  ghost function Past(): World -> bool { (w: World) => Sound(w) && CheckedPast(w) }

  lemma {:induction false} SchedulePast(now: nat, first: seq<Action>, ws: seq<World>, plans: seq<seq<Plan>>,
                                        between: seq<seq<Action>>, i: nat)
    requires Schedule(ws, plans, between) && ws[0] == Run(Start(now), first) && i < |ws|
    ensures Past()(ws[i])
  {
    RunSound(now, first);
    RunChecked(now, first);
    forall k: nat | k < |ws| - 1 && Past()(ws[k])
      ensures Past()(ws[k + 1])
    {
      OneTurn(ws, plans, between, k);
    }
    AllKept(Past(), ws, i);
  }

  function JobsOf(ws: seq<World>): seq<seq<B.Job>> { seq(|ws|, i requires 0 <= i < |ws| => ws[i].book.jobs) }

  lemma {:induction false} SchedulePasses(now: nat, first: seq<Action>, ws: seq<World>, plans: seq<seq<Plan>>,
                                          between: seq<seq<Action>>)
    requires Schedule(ws, plans, between) && ws[0] == Run(Start(now), first)
    ensures Passes(JobsOf(ws))
  {
    forall i | 0 <= i < |ws| - 1
      ensures Pass(JobsOf(ws)[i], JobsOf(ws)[i + 1])
    {
      SchedulePast(now, first, ws, plans, between, i);
      OneTurn(ws, plans, between, i);
    }
  }

  lemma {:induction false} InTime(ws: seq<World>, k: nat, n: nat)
    requires ws != [] && Passes(JobsOf(ws))
    requires k < |ws[0].book.jobs| && Recoverable(ws[0].book.jobs[k]) && n == |RecoverableSet(ws[0].book.jobs)|
    requires |ws| > (n + RECOVERY_LIMIT - 1) / RECOVERY_LIMIT
    ensures exists i :: 0 <= i < (n + RECOVERY_LIMIT - 1) / RECOVERY_LIMIT && k in Batch(ws[i].book.jobs)
  {
    var history := JobsOf(ws);
    AttemptedInTime(history, k, n);
    var i :| 0 <= i < (n + RECOVERY_LIMIT - 1) / RECOVERY_LIMIT && k in Batch(history[i]);
    assert history[i] == ws[i].book.jobs;
  }

  /** No reserved job starves: from any reachable state, among n recoverable jobs each one is
      in the batch of one of the next ceil(n / 25) recovery passes, whatever the provider and
      the network do to the attempts and whatever else happens between the passes. */
  lemma {:induction false} RecoveredInTime(now: nat, first: seq<Action>, ws: seq<World>, plans: seq<seq<Plan>>,
                                           between: seq<seq<Action>>, k: nat, n: nat)
    requires Schedule(ws, plans, between) && ws[0] == Run(Start(now), first)
    requires k < |ws[0].book.jobs| && Recoverable(ws[0].book.jobs[k]) && n == |RecoverableSet(ws[0].book.jobs)|
    requires |ws| > (n + RECOVERY_LIMIT - 1) / RECOVERY_LIMIT
    ensures exists i :: 0 <= i < (n + RECOVERY_LIMIT - 1) / RECOVERY_LIMIT && k in Batch(ws[i].book.jobs)
  {
    SchedulePasses(now, first, ws, plans, between);
    InTime(ws, k, n);
  }
}
