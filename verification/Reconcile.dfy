/** The reconciliation pass of run(): which jobs are due, and the memo that lets a pass
    skip a rail whose file has not changed. */
module Reconcile {
  import opened Basics
  import B = Book
  import Hub

  const POSTED_RECHECK_MS := 6 * Hub.HOUR
  const CANDIDATE_LIMIT := 100
  const RECOVERY_LIMIT := 25

  predicate Ended(s: B.Status) { s in {B.Returned, B.Failed, B.Canceled} }

  /** A job with a known payment whose status is worth asking for at time `at`. */
  predicate Candidate(job: B.Job, at: nat) {
    && job.stripeId.Some? && !job.conflict && !Ended(job.status)
    && (job.status != B.Posted || at - job.checked >= POSTED_RECHECK_MS)
  }

  /** A reserved job whose submission outcome is not known. */
  predicate Recoverable(job: B.Job) {
    job.stripeId.None? && job.status == B.Submitting && !job.conflict
  }

  /** What is due: a payment not known to have arrived at every pass, one that has posted six
      hours after its last check, and none that has ended or is under review for its identity.
      Submitted again is a job without a payment that is not under review for anything. */
  lemma {:induction false} DueMeans(job: B.Job, at: nat)
    requires job.status != B.Unrecognised
    ensures Recoverable(job) <==> job.stripeId.None? && job.status == B.Submitting && !job.conflict
    ensures Candidate(job, at) <==>
              && job.stripeId.Some? && !job.conflict
              && (job.status in {B.Submitting, B.NeedsReview, B.Processing}
                  || (job.status == B.Posted && at >= job.checked + 6 * 60 * 60 * 1000))
  {
  }

  predicate NothingDue(jobs: seq<B.Job>, at: nat) {
    forall j | 0 <= j < |jobs| :: !Candidate(jobs[j], at) && !Recoverable(jobs[j])
  }

  /** The next time a pass has something to do; Never stands for positive infinity. */
  datatype Due = Never | At(time: nat)

  predicate Before(at: nat, due: Due) { due.Never? || at < due.time }

  function Sooner(due: Due, time: nat): Due {
    if due.Never? || time < due.time then At(time) else due
  }

  function DueWith(due: Due, job: B.Job): Due {
    if job.conflict then due
    else if job.stripeId.Some? && !Ended(job.status) then
      Sooner(due, if job.status == B.Posted then job.checked + POSTED_RECHECK_MS else 0)
    else if job.stripeId.None? && job.status == B.Submitting then Sooner(due, 0)
    else due
  }

  function NextDue(jobs: seq<B.Job>): Due {
    if jobs == [] then Never else DueWith(NextDue(jobs[..|jobs| - 1]), jobs[|jobs| - 1])
  }

  /** The sleep is exact: before the computed time a full scan finds nothing, and from that
      time on it finds something, however many jobs there are. */
  lemma {:induction false} DueExact(jobs: seq<B.Job>, at: nat)
    ensures Before(at, NextDue(jobs)) <==> NothingDue(jobs, at)
  {
    if jobs != [] {
      var n := |jobs| - 1;
      DueExact(jobs[..n], at);
      var job := jobs[n];
      assert Before(at, DueWith(NextDue(jobs[..n]), job))
        <==> Before(at, NextDue(jobs[..n])) && !Candidate(job, at) && !Recoverable(job);
      assert NothingDue(jobs, at) <==> NothingDue(jobs[..n], at) && !Candidate(job, at) && !Recoverable(job) by {
        assert forall j | 0 <= j < n :: jobs[..n][j] == jobs[j];
      }
    }
  }

  /** Positions of the chosen jobs, oldest check first, ties in list order. */
  function Ordered(jobs: seq<B.Job>, chosen: B.Job -> bool): (order: seq<nat>)
    ensures forall i | 0 <= i < |order| :: order[i] < |jobs|
  {
    if jobs == [] then [] else
      var n := |jobs| - 1;
      var front := Ordered(jobs[..n], chosen);
      if chosen(jobs[n]) then Insert(jobs, front, n) else front
  }

  /** Inserts position i after every earlier position that was checked no later. */
  function Insert(jobs: seq<B.Job>, order: seq<nat>, i: nat): (r: seq<nat>)
    requires i < |jobs| && forall k | 0 <= k < |order| :: order[k] < |jobs|
    ensures |r| == |order| + 1
    ensures forall k | 0 <= k < |r| :: r[k] < |jobs|
  {
    if order == [] || jobs[order[|order| - 1]].checked <= jobs[i].checked then order + [i]
    else Insert(jobs, order[..|order| - 1], i) + [order[|order| - 1]]
  }

  /** Position i comes before position k: checked earlier, or as early and listed first. */
  predicate Precedes(jobs: seq<B.Job>, i: nat, k: nat)
    requires i < |jobs| && k < |jobs|
  {
    jobs[i].checked < jobs[k].checked || (jobs[i].checked == jobs[k].checked && i < k)
  }

  predicate Sorted(jobs: seq<B.Job>, order: seq<nat>)
    requires forall i | 0 <= i < |order| :: order[i] < |jobs|
  {
    forall i, k | 0 <= i < k < |order| :: Precedes(jobs, order[i], order[k])
  }

  lemma {:induction false} InsertSorted(jobs: seq<B.Job>, order: seq<nat>, n: nat)
    requires n < |jobs| && forall i | 0 <= i < |order| :: order[i] < n
    requires Sorted(jobs, order)
    ensures Sorted(jobs, Insert(jobs, order, n))
    ensures forall x: nat :: x in Insert(jobs, order, n) <==> x in order || x == n
  {
    if order != [] && jobs[order[|order| - 1]].checked > jobs[n].checked {
      var last := order[|order| - 1];
      var front := order[..|order| - 1];
      assert order == front + [last];
      InsertSorted(jobs, front, n);
      var r := Insert(jobs, front, n);
      forall i | 0 <= i < |r|
        ensures Precedes(jobs, r[i], last)
      {
        assert r[i] in r;
        if r[i] != n {
          var k :| 0 <= k < |front| && front[k] == r[i];
        }
      }
    } else if order != [] {
      var last := order[|order| - 1];
      forall i | 0 <= i < |order|
        ensures Precedes(jobs, order[i], n)
      {
        if i < |order| - 1 {
          assert Precedes(jobs, order[i], last);
        }
      }
    }
  }

  /** The order of a pass: sorted, and exactly the chosen jobs. */
  lemma {:induction false} OrderedSpec(jobs: seq<B.Job>, all: seq<B.Job>, chosen: B.Job -> bool)
    requires |jobs| <= |all| && jobs == all[..|jobs|]
    ensures var order := Ordered(jobs, chosen);
            Sorted(all, order)
            && forall x: nat :: x in order <==> x < |jobs| && chosen(jobs[x])
  {
    if jobs != [] {
      var n := |jobs| - 1;
      var front := Ordered(jobs[..n], chosen);
      OrderedSpec(jobs[..n], all, chosen);
      if chosen(jobs[n]) {
        InsertSame(jobs, all, front, n);
        InsertSorted(all, front, n);
      }
    }
  }

  lemma {:induction false} InsertSame(jobs: seq<B.Job>, all: seq<B.Job>, order: seq<nat>, n: nat)
    requires n < |jobs| <= |all| && jobs == all[..|jobs|] && forall i | 0 <= i < |order| :: order[i] < |jobs|
    ensures Insert(jobs, order, n) == Insert(all, order, n)
  {
    if order != [] {
      InsertSame(jobs, all, order[..|order| - 1], n);
    }
  }

  function Take(order: seq<nat>, limit: nat): seq<nat> {
    if |order| <= limit then order else order[..limit]
  }

  function DueAt(at: nat): B.Job -> bool { (job: B.Job) => Candidate(job, at) }
  function Unsettled(): B.Job -> bool { (job: B.Job) => Recoverable(job) }

  /** The first `limit` of the chosen jobs, oldest check first: each of them chosen, sorted, and
      none left out unless the limit is reached and all of these come before it. */
  ghost predicate OldestFirst(jobs: seq<B.Job>, chosen: B.Job -> bool, limit: nat, order: seq<nat>) {
    && |order| <= limit && (forall i | 0 <= i < |order| :: order[i] < |jobs| && chosen(jobs[order[i]])) && Sorted(jobs, order)
    && (forall x: nat | x < |jobs| && chosen(jobs[x]) && x !in order ::
          |order| == limit && forall i | 0 <= i < |order| :: Precedes(jobs, order[i], x))
  }

  lemma {:induction false} TakesOldest(jobs: seq<B.Job>, chosen: B.Job -> bool, limit: nat)
    ensures OldestFirst(jobs, chosen, limit, Take(Ordered(jobs, chosen), limit))
  {
    var order := Ordered(jobs, chosen);
    assert jobs == jobs[..|jobs|];
    OrderedSpec(jobs, jobs, chosen);
    var taken := Take(order, limit);
    assert forall i | 0 <= i < |taken| :: taken[i] == order[i];
    forall i | 0 <= i < |taken|
      ensures chosen(jobs[taken[i]])
    {
      assert order[i] in order;
    }
    forall x: nat | x < |jobs| && chosen(jobs[x]) && x !in taken
      ensures |taken| == limit && forall i | 0 <= i < |taken| :: Precedes(jobs, taken[i], x)
    {
      var k :| 0 <= k < |order| && order[k] == x;
      assert k >= |taken|;
    }
  }

  /** Each job was asked about once, in this order, as it was when the pass began. */
  predicate AskedOf(jobs: seq<B.Job>, order: seq<nat>, found: seq<Hub.Read>) {
    |found| == |order|
    && forall i | 0 <= i < |order| :: order[i] < |jobs| && found[i].job == order[i] && found[i].asked == jobs[order[i]]
  }

  datatype Memo = Memo(version: nat, due: Due, jobs: seq<B.Job>)

  /** One rail's file with its version, and the worker's memo of it. */
  class Rail {
    var book: B.Book
    var version: nat
    var memo: Option<Memo>
    /** Saves that others made while the worker waited. */
    ghost var others: nat

    constructor (book: B.Book)
      ensures MemoExact() && memo.None? && this.book == book
    {
      this.book, version, memo, others := book, 0, None, 0;
    }

    /** A memo of the current version tells the truth about the file. */
    ghost predicate MemoExact()
      reads this
    {
      memo.Some? ==>
        memo.value.version <= version
        && (memo.value.version == version ==> memo.value.jobs == book.jobs && memo.value.due == NextDue(book.jobs))
    }

    /** Anything may have been saved while the worker waited: each save gives a new version. */
    method Await()
      modifies this`book, this`version, this`others
      ensures version >= old(version) && others >= old(others)
      ensures version == old(version) || others == old(others) ==> book == old(book) && version == old(version) && others == old(others)
    {
      if * {
        book := *;
        version, others := version + 1, others + 1;
      }
    }

    method Save(after: B.Book)
      modifies this`book, this`version
      ensures book == after && version == old(version) + 1
    {
      book, version := after, version + 1;
    }

    /** One pass over the rail. A skipped pass is one in which a full scan of the file as it
        is now would find nothing to reconcile and nothing to recover. Otherwise the provider
        is asked about the first hundred due jobs, oldest check first, and 25 recoverable jobs
        are submitted again in the same order; what was found is committed in one save, with
        the jobs as they were when the pass began. */
    method Scan(at: nat) returns (skipped: bool, ghost asked: seq<nat>, ghost found: seq<Hub.Read>, ghost retried: seq<nat>)
      requires MemoExact()
      modifies this
      ensures MemoExact()
      ensures skipped ==> NothingDue(book.jobs, at) && book == old(book) && memo == old(memo)
      ensures !skipped ==> memo.Some? && memo.value.version == version
      ensures !skipped && old(memo.Some? && memo.value.version == version) ==> !NothingDue(old(book.jobs), at)
      ensures !skipped ==> OldestFirst(old(book.jobs), DueAt(at), 100, asked)
      ensures !skipped ==> OldestFirst(old(book.jobs), Unsettled(), 25, retried)
      ensures !skipped ==> |found| == |asked| && AskedOf(old(book.jobs), asked, found)
      ensures !skipped && others == old(others) ==> book == Hub.CommitAll(old(book), found, at, "reconciliation will retry")
    {
      asked, found, retried := [], [], [];
      var started := version;
      if memo.Some? && memo.value.version == started && Before(at, memo.value.due) {
        DueExact(book.jobs, at);
        skipped := true;
        return;
      }
      DueExact(book.jobs, at);
      var all := if memo.Some? && memo.value.version == started then memo.value.jobs else book.jobs;
      TakesOldest(all, DueAt(at), CANDIDATE_LIMIT);
      TakesOldest(all, Unsettled(), RECOVERY_LIMIT);
      asked := Take(Ordered(all, DueAt(at)), CANDIDATE_LIMIT);
      var outcomes := Ask(all, Take(Ordered(all, DueAt(at)), CANDIDATE_LIMIT));
      found := outcomes;
      var latest := Commit(all, outcomes, at);
      var recoverable := Take(Ordered(all, Unsettled()), RECOVERY_LIMIT);
      retried := recoverable;
      Resubmit(recoverable);
      if recoverable != [] {
        latest := book.jobs;
      }
      memo := Some(Memo(version, NextDue(latest), latest));
      skipped := false;
    }

    /** The loop over the candidates. */
    method Ask(all: seq<B.Job>, candidates: seq<nat>) returns (found: seq<Hub.Read>)
      requires forall i | 0 <= i < |candidates| :: candidates[i] < |all|
      modifies this`book, this`version, this`others
      ensures version >= old(version) && others >= old(others)
      ensures others == old(others) || candidates == [] ==> book == old(book)
      ensures |found| == |candidates| && AskedOf(all, candidates, found)
    {
      found := [];
      for i := 0 to |candidates|
        invariant version >= old(version) && others >= old(others)
        invariant others == old(others) || i == 0 ==> book == old(book)
        invariant |found| == i && AskedOf(all, candidates[..i], found)
      {
        Await();
        var answer: Option<B.Status> := *;
        found := found + [Hub.Read(candidates[i], all[candidates[i]], answer)];
      }
      assert candidates[..|candidates|] == candidates;
    }

    /** The recovery loop: each submission is an await of its own. */
    method Resubmit(recoverable: seq<nat>)
      modifies this`book, this`version, this`others
      ensures version >= old(version) && others >= old(others)
      ensures others == old(others) || recoverable == [] ==> book == old(book)
    {
      for i := 0 to |recoverable|
        invariant version >= old(version) && others >= old(others)
        invariant others == old(others) || i == 0 ==> book == old(book)
      {
        Await();
      }
    }

    /** One save for all outcomes, if there are any and they change something. */
    method Commit(all: seq<B.Job>, found: seq<Hub.Read>, at: nat) returns (latest: seq<B.Job>)
      modifies this`book, this`version
      ensures book == Hub.CommitAll(old(book), found, at, "reconciliation will retry") && version >= old(version)
      ensures latest == if found == [] then all else book.jobs
    {
      latest := all;
      if found != [] {
        var after := Hub.CommitAll(book, found, at, "reconciliation will retry");
        latest := after.jobs;
        if after != book {
          Save(after);
        }
      }
    }

    /** The worker's other writes and the operators' writes keep the memo exact too. */
    method OtherWrite(after: B.Book)
      requires MemoExact()
      modifies this`book, this`version
      ensures MemoExact()
    {
      Save(after);
    }
  }
}
