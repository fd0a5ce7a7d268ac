/** The bounded compression queue, for a `gzipFn` that may do anything with its callback. */
module GzipQueue {
  import opened Basics

  // `gzipFn` is unknown code: it may call back at once, later, never, repeatedly, or throw, and
  // while it runs it may use the queue again. The call stack is therefore part of the state,
  // and every atomic step is an operation of its own.

  type Bytes = seq<nat>

  datatype Limits = Limits(maxActive: nat, maxJobs: nat, maxRetainedBytes: nat)

  predicate Acceptable(l: Limits) {
    1 <= l.maxActive <= l.maxJobs && 1 <= l.maxRetainedBytes
  }

  datatype Outcome = Compressed(bytes: Bytes) | Failed(reason: string)

  /** What a callback settles the promise with. */
  function Answer(error: Option<string>, result: Option<Bytes>): Outcome {
    if error.Some? then Failed(error.value)
    else if result.None? then Failed("gzip returned no result")
    else Compressed(result.value)
  }

  /** One reservation: unused, given back (or refused), waiting, inside gzip, or settled. */
  datatype Ticket =
    | Reserved
    | Released
    | Queued(size: nat)
    | Running(size: nat)
    | Settled(size: nat, outcome: Outcome)

  /** A pump at its loop test, or a pump inside `gzipFn` for a job. */
  datatype Frame = Looping | Calling(job: nat)

  datatype State = State(
    active: int, jobs: int, retainedBytes: int, pending: seq<nat>,
    tickets: seq<Ticket>, stack: seq<Frame>,
    submitted: seq<nat>, started: seq<nat>, settled: seq<nat>)

  function Start(): State { State(0, 0, 0, [], [], [], [], [], []) }

  datatype Event =
    | Reserve
    | Compress(ticket: nat, size: nat)
    | Release(ticket: nat)
    | Finish(job: nat, error: Option<string>, result: Option<Bytes>)
    | Return
    | Throw(thrown: string)
    | Pump

  /** Other code runs when no pump is at its loop test. */
  predicate Outside(s: State) { s.stack == [] || s.stack[|s.stack| - 1].Calling? }

  predicate Enabled(s: State, e: Event) {
    match e
    case Reserve => Outside(s)
    case Compress(t, _) => Outside(s) && t < |s.tickets|
    case Release(t) => Outside(s) && t < |s.tickets|
    case Finish(j, _, _) => Outside(s) && j in s.started
    case Return => Outside(s) && s.stack != []
    case Throw(_) => Outside(s) && s.stack != []
    case Pump => !Outside(s)
  }

  // ---------------------------------------------------------------- the steps

  function Reserving(l: Limits, s: State): State {
    if s.jobs >= l.maxJobs then s else s.(jobs := s.jobs + 1, tickets := s.tickets + [Reserved])
  }

  function Compressing(l: Limits, s: State, t: nat, size: nat): State
    requires t < |s.tickets|
  {
    if s.tickets[t] != Reserved then s
    else if size > l.maxRetainedBytes - s.retainedBytes then
      s.(jobs := s.jobs - 1, tickets := s.tickets[t := Released])
    else
      s.(retainedBytes := s.retainedBytes + size, tickets := s.tickets[t := Queued(size)],
         pending := s.pending + [t], submitted := s.submitted + [t], stack := s.stack + [Looping])
  }

  function Releasing(s: State, t: nat): State
    requires t < |s.tickets|
  {
    if s.tickets[t] != Reserved then s else s.(jobs := s.jobs - 1, tickets := s.tickets[t := Released])
  }

  function Finishing(s: State, j: nat, outcome: Outcome): State
    requires j < |s.tickets|
  {
    if !s.tickets[j].Running? then s
    else
      s.(active := s.active - 1, jobs := s.jobs - 1, retainedBytes := s.retainedBytes - s.tickets[j].size,
         tickets := s.tickets[j := Settled(s.tickets[j].size, outcome)],
         settled := s.settled + [j], stack := s.stack + [Looping])
  }

  function Pumping(l: Limits, s: State): State
    requires s.stack != []
  {
    var below := s.stack[..|s.stack| - 1];
    if s.active >= l.maxActive || s.pending == [] then s.(stack := below)
    else
      var j := s.pending[0];
      s.(active := s.active + 1, pending := s.pending[1..], started := s.started + [j],
         tickets := if j < |s.tickets| && s.tickets[j].Queued? then s.tickets[j := Running(s.tickets[j].size)] else s.tickets,
         stack := below + [Calling(j)])
  }

  function Returned(s: State): State
    requires s.stack != []
  {
    s.(stack := s.stack[..|s.stack| - 1] + [Looping])
  }

  ghost function Step(l: Limits, s: State, e: Event): State
    requires Enabled(s, e) && Grounded(s)
  {
    match e
    case Reserve => Reserving(l, s)
    case Compress(t, size) => Compressing(l, s, t, size)
    case Release(t) => Releasing(s, t)
    case Finish(j, error, result) => Finishing(s, j, Answer(error, result))
    case Return => Returned(s)
    case Throw(thrown) => Finishing(Returned(s), s.stack[|s.stack| - 1].job, Failed(thrown))
    case Pump => Pumping(l, s)
  }

  /** Every callback and every gzip call in progress belongs to a job that was started. */
  ghost predicate Grounded(s: State) {
    && (forall i | 0 <= i < |s.started| :: s.started[i] < |s.tickets|)
    && (forall i | 0 <= i < |s.stack| :: s.stack[i].Calling? ==> s.stack[i].job in s.started)
  }

  // ---------------------------------------------------------------- counting tickets

  /** What a ticket adds to each of the counters. */
  datatype Column = Unused | Waiting | Inside | Held

  function Weight(t: Ticket, c: Column): int {
    match c
    case Unused => if t.Reserved? then 1 else 0
    case Waiting => if t.Queued? then 1 else 0
    case Inside => if t.Running? then 1 else 0
    case Held => if t.Queued? || t.Running? then t.size else 0
  }

  function Weigh(ts: seq<Ticket>, c: Column): int {
    if ts == [] then 0 else Weigh(ts[..|ts| - 1], c) + Weight(ts[|ts| - 1], c)
  }

  lemma {:induction false} WeighUpdate(ts: seq<Ticket>, i: nat, t: Ticket, c: Column)
    requires i < |ts|
    ensures Weigh(ts[i := t], c) == Weigh(ts, c) - Weight(ts[i], c) + Weight(t, c)
  {
    var n := |ts| - 1;
    if i < n {
      WeighUpdate(ts[..n], i, t, c);
      assert ts[i := t][..n] == ts[..n][i := t];
    } else {
      assert ts[i := t][..n] == ts[..n];
    }
  }

  lemma {:induction false} WeighPush(ts: seq<Ticket>, t: Ticket, c: Column)
    ensures Weigh(ts + [t], c) == Weigh(ts, c) + Weight(t, c)
  {
    assert (ts + [t])[..|ts|] == ts;
  }

  // ---------------------------------------------------------------- the invariant

  ghost predicate Distinct(ids: seq<nat>) { forall i, k | 0 <= i < k < |ids| :: ids[i] != ids[k] }

  ghost predicate Sizes(l: Limits, s: State) {
    && s.active == Weigh(s.tickets, Inside) <= l.maxActive
    && |s.pending| == Weigh(s.tickets, Waiting)
    && s.jobs == Weigh(s.tickets, Unused) + |s.pending| + s.active <= l.maxJobs
    && s.retainedBytes == Weigh(s.tickets, Held) <= l.maxRetainedBytes
  }

  predicate Begun(t: Ticket) { t.Running? || t.Settled? }

  /** Each submitted job has one place in the order, and its ticket says how far it is. */
  ghost predicate Order(s: State) {
    && s.submitted == s.started + s.pending
    && Distinct(s.submitted)
    && (forall t: nat :: t in s.pending ==> t < |s.tickets| && s.tickets[t].Queued?)
    && (forall t: nat :: t in s.started ==> t < |s.tickets| && Begun(s.tickets[t]))
    && (forall t: nat | t < |s.tickets| :: s.tickets[t].Queued? || Begun(s.tickets[t]) <==> t in s.submitted)
  }

  ghost predicate SettledOnce(s: State) {
    && Distinct(s.settled)
    && (forall t: nat :: t in s.settled <==> t < |s.tickets| && s.tickets[t].Settled?)
  }

  predicate Saturated(l: Limits, s: State) { s.pending == [] || s.active == l.maxActive }

  ghost predicate Consistent(l: Limits, s: State) {
    && Sizes(l, s) && Order(s) && SettledOnce(s) && Grounded(s)
    && (s.stack == [] ==> Saturated(l, s))
  }

  lemma {:induction false} StartConsistent(l: Limits)
    requires Acceptable(l)
    ensures Consistent(l, Start())
  {
  }

  // ---------------------------------------------------------------- every step keeps it

  /** One ticket changes phase. */
  lemma {:induction false} Rephased(ts: seq<Ticket>, i: nat, t: Ticket)
    requires i < |ts|
    ensures forall c: Column :: Weigh(ts[i := t], c) == Weigh(ts, c) - Weight(ts[i], c) + Weight(t, c)
  {
    forall c: Column
      ensures Weigh(ts[i := t], c) == Weigh(ts, c) - Weight(ts[i], c) + Weight(t, c)
    {
      WeighUpdate(ts, i, t, c);
    }
  }

  lemma {:induction false} ReservingConsistent(l: Limits, s: State)
    requires Consistent(l, s) && Outside(s)
    ensures Consistent(l, Reserving(l, s))
  {
    WeighPush(s.tickets, Reserved, Unused);
    WeighPush(s.tickets, Reserved, Waiting);
    WeighPush(s.tickets, Reserved, Inside);
    WeighPush(s.tickets, Reserved, Held);
  }

  lemma {:induction false} CompressingSizes(l: Limits, s: State, t: nat, size: nat)
    requires Sizes(l, s) && t < |s.tickets|
    ensures Sizes(l, Compressing(l, s, t, size))
  {
    Rephased(s.tickets, t, Released);
    Rephased(s.tickets, t, Queued(size));
  }

  lemma {:induction false} CompressingOrder(l: Limits, s: State, t: nat, size: nat)
    requires Order(s) && t < |s.tickets|
    ensures Order(Compressing(l, s, t, size))
  {
  }

  lemma {:induction false} CompressingConsistent(l: Limits, s: State, t: nat, size: nat)
    requires Consistent(l, s) && Outside(s) && t < |s.tickets|
    ensures Consistent(l, Compressing(l, s, t, size))
  {
    CompressingSizes(l, s, t, size);
    CompressingOrder(l, s, t, size);
  }

  lemma {:induction false} ReleasingConsistent(l: Limits, s: State, t: nat)
    requires Consistent(l, s) && Outside(s) && t < |s.tickets|
    ensures Consistent(l, Releasing(s, t))
  {
    Rephased(s.tickets, t, Released);
  }

  lemma {:induction false} FinishingConsistent(l: Limits, s: State, j: nat, outcome: Outcome)
    requires Consistent(l, s) && j in s.started
    ensures Consistent(l, Finishing(s, j, outcome))
  {
    if s.tickets[j].Running? {
      Rephased(s.tickets, j, Settled(s.tickets[j].size, outcome));
    }
  }

  lemma {:induction false} ReturnedConsistent(l: Limits, s: State)
    requires Consistent(l, s) && s.stack != []
    ensures Consistent(l, Returned(s))
  {
  }

  /** The next job moves from the waiting to the started ones, and waits no longer. */
  lemma {:induction false} NextStarts(s: State)
    requires Order(s) && s.pending != []
    ensures s.submitted == (s.started + [s.pending[0]]) + s.pending[1..]
    ensures s.pending[0] !in s.pending[1..] && s.pending[0] !in s.started
  {
    var n := |s.started|;
    assert s.submitted[n] == s.pending[0];
    assert forall i | 0 <= i < |s.pending| - 1 :: s.pending[1..][i] == s.submitted[n + 1 + i];
    assert forall i | 0 <= i < n :: s.started[i] == s.submitted[i];
  }

  lemma {:induction false} PumpingOrder(l: Limits, s: State)
    requires Order(s) && s.stack != []
    ensures Order(Pumping(l, s))
  {
    if s.active < l.maxActive && s.pending != [] {
      NextStarts(s);
      var j, after := s.pending[0], Pumping(l, s);
      assert j in s.pending && s.tickets[j].Queued?;
      forall t: nat | t in after.pending
        ensures t < |after.tickets| && after.tickets[t].Queued?
      {
        assert t in s.pending;
      }
      forall t: nat | t in after.started
        ensures t < |after.tickets| && Begun(after.tickets[t])
      {
        assert t != j ==> t in s.started;
      }
    }
  }

  lemma {:induction false} PumpingSizes(l: Limits, s: State)
    requires Sizes(l, s) && Order(s) && s.stack != []
    ensures Sizes(l, Pumping(l, s))
  {
    if s.active < l.maxActive && s.pending != [] {
      assert s.pending[0] in s.pending && s.tickets[s.pending[0]].Queued?;
      Rephased(s.tickets, s.pending[0], Running(s.tickets[s.pending[0]].size));
    }
  }

  lemma {:induction false} PumpingSettles(l: Limits, s: State)
    requires SettledOnce(s) && Order(s) && Grounded(s) && s.stack != []
    ensures SettledOnce(Pumping(l, s)) && Grounded(Pumping(l, s))
  {
    assert s.pending != [] ==> s.pending[0] in s.pending;
  }

  lemma {:induction false} PumpingConsistent(l: Limits, s: State)
    requires Consistent(l, s) && s.stack != []
    ensures Consistent(l, Pumping(l, s))
  {
    PumpingOrder(l, s);
    PumpingSizes(l, s);
    PumpingSettles(l, s);
  }

  lemma {:induction false} StepConsistent(l: Limits, s: State, e: Event)
    requires Consistent(l, s) && Enabled(s, e)
    ensures Consistent(l, Step(l, s, e))
  {
    match e
    case Reserve => ReservingConsistent(l, s);
    case Compress(t, size) => CompressingConsistent(l, s, t, size);
    case Release(t) => ReleasingConsistent(l, s, t);
    case Finish(j, error, result) => FinishingConsistent(l, s, j, Answer(error, result));
    case Return => ReturnedConsistent(l, s);
    case Throw(thrown) =>
      ReturnedConsistent(l, s);
      FinishingConsistent(l, Returned(s), s.stack[|s.stack| - 1].job, Failed(thrown));
    case Pump => PumpingConsistent(l, s);
  }

  // ---------------------------------------------------------------- whole runs

  ghost predicate IsRun(l: Limits, states: seq<State>, events: seq<Event>) {
    && |states| == |events| + 1 && states[0] == Start()
    && (forall i | 0 <= i < |events| ::
          Grounded(states[i]) && Enabled(states[i], events[i]) && states[i + 1] == Step(l, states[i], events[i]))
  }

  lemma {:induction false} RunConsistent(l: Limits, states: seq<State>, events: seq<Event>, at: nat)
    requires Acceptable(l) && IsRun(l, states, events) && at < |states|
    ensures Consistent(l, states[at])
  {
    if at == 0 {
      StartConsistent(l);
    } else {
      RunConsistent(l, states, events, at - 1);
      StepConsistent(l, states[at - 1], events[at - 1]);
    }
  }

  /** In every reachable state, whatever the callbacks do: the counters count exactly the
      unsubmitted, waiting and running jobs and the bytes they hold, and stay in bounds. */
  lemma {:induction false} CountersExact(l: Limits, states: seq<State>, events: seq<Event>, at: nat)
    requires Acceptable(l) && IsRun(l, states, events) && at < |states|
    ensures var s := states[at];
            && s.jobs == Weigh(s.tickets, Unused) + |s.pending| + s.active <= l.maxJobs
            && s.retainedBytes == Weigh(s.tickets, Held) <= l.maxRetainedBytes
            && 0 <= s.active == Weigh(s.tickets, Inside) <= l.maxActive
  {
    RunConsistent(l, states, events, at);
    WeighNonnegative(states[at].tickets, Inside);
  }

  lemma {:induction false} WeighNonnegative(ts: seq<Ticket>, c: Column)
    ensures Weigh(ts, c) >= 0
    ensures Weigh(ts, c) == 0 && c != Held ==> forall i | 0 <= i < |ts| :: Weight(ts[i], c) == 0
  {
    if ts != [] {
      WeighNonnegative(ts[..|ts| - 1], c);
    }
  }

  /** Between calls, a job waits only while `maxActive` others are inside gzip. */
  lemma {:induction false} NoIdleWorker(l: Limits, states: seq<State>, events: seq<Event>, at: nat)
    requires Acceptable(l) && IsRun(l, states, events) && at < |states| && states[at].stack == []
    ensures states[at].pending != [] ==> states[at].active == l.maxActive
  {
    RunConsistent(l, states, events, at);
  }

  /** A pump, nested or not, ends only when nothing waits or every worker is busy. */
  lemma {:induction false} PumpEndsSaturated(l: Limits, s: State)
    requires Consistent(l, s) && s.stack != [] && |Pumping(l, s).stack| < |s.stack|
    ensures Saturated(l, Pumping(l, s))
  {
  }

  ghost predicate IsPrefix(a: seq<nat>, b: seq<nat>) { |a| <= |b| && b[..|a|] == a }

  /** Jobs start in the order they were submitted, each once; each settles at most once. */
  lemma {:induction false} FirstInFirstOut(l: Limits, states: seq<State>, events: seq<Event>, at: nat)
    requires Acceptable(l) && IsRun(l, states, events) && at < |states|
    ensures IsPrefix(states[at].started, states[at].submitted)
    ensures Distinct(states[at].submitted) && Distinct(states[at].started) && Distinct(states[at].settled)
    ensures forall j: nat :: j in states[at].settled ==> j in states[at].started
  {
    RunConsistent(l, states, events, at);
    var s := states[at];
    assert forall i | 0 <= i < |s.started| :: s.started[i] == s.submitted[i];
  }

  /** The queue's logs only grow, and a ticket that left its reservation never goes back. */
  lemma {:induction false} StepGrows(l: Limits, s: State, e: Event)
    requires Grounded(s) && Enabled(s, e)
    ensures IsPrefix(s.submitted, Step(l, s, e).submitted) && IsPrefix(s.started, Step(l, s, e).started)
    ensures IsPrefix(s.settled, Step(l, s, e).settled)
    ensures |s.tickets| <= |Step(l, s, e).tickets|
    ensures forall t: nat | t < |s.tickets| && (s.tickets[t].Settled? || s.tickets[t].Released?) ::
              Step(l, s, e).tickets[t] == s.tickets[t]
  {
  }

  predicate Final(s: State, t: nat, kept: Ticket) {
    t < |s.tickets| && s.tickets[t] == kept && (kept.Settled? || kept.Released?)
  }

  lemma {:induction false} StepFinal(l: Limits, states: seq<State>, events: seq<Event>, i: nat, t: nat, kept: Ticket)
    requires IsRun(l, states, events) && i < |events| && Final(states[i], t, kept)
    ensures Final(states[i + 1], t, kept)
  {
    StepGrows(l, states[i], events[i]);
  }

  lemma {:induction false} Persists(states: seq<State>, holds: State -> bool, from: nat, to: nat)
    requires from <= to < |states| && holds(states[from])
    requires forall i | from <= i < to && holds(states[i]) :: holds(states[i + 1])
    ensures holds(states[to])
  {
    if from < to {
      Persists(states, holds, from, to - 1);
    }
  }

  /** The first callback decides: once a promise is settled, or a reservation given back, no
      later event of the run changes it. */
  lemma {:induction false} FirstCallbackWins(l: Limits, states: seq<State>, events: seq<Event>, t: nat, from: nat,
                                             to: nat, kept: Ticket)
    requires Acceptable(l) && IsRun(l, states, events) && from <= to < |states| && Final(states[from], t, kept)
    ensures Final(states[to], t, kept)
  {
    forall i | from <= i < to && Final(states[i], t, kept)
      ensures Final(states[i + 1], t, kept)
    {
      StepFinal(l, states, events, i, t, kept);
    }
    Persists(states, (s: State) => Final(s, t, kept), from, to);
  }

  /** A running job's promise is settled by its first callback, with the error if there is one
      and else with the bytes; by an exception with its reason; and by nothing afterwards. */
  lemma {:induction false} SettlesWith(l: Limits, s: State, j: nat, error: Option<string>, result: Option<Bytes>)
    requires Grounded(s) && Enabled(s, Event.Finish(j, error, result))
    ensures var after := Step(l, s, Event.Finish(j, error, result));
            if !s.tickets[j].Running? then after == s
            else
              && |after.tickets| == |s.tickets| && after.tickets[j].Settled? && after.settled == s.settled + [j]
              && (forall t | 0 <= t < |s.tickets| && t != j :: after.tickets[t] == s.tickets[t])
              && (error.Some? ==> after.tickets[j].outcome == Failed(error.value))
              && (error.None? && result.Some? ==> after.tickets[j].outcome == Compressed(result.value))
              && (error.None? && result.None? ==> after.tickets[j].outcome.Failed?)
  {
  }

  lemma {:induction false} ThrowSettles(l: Limits, s: State, thrown: string)
    requires Grounded(s) && Enabled(s, Event.Throw(thrown))
    ensures var after := Step(l, s, Event.Throw(thrown));
            var j := s.stack[|s.stack| - 1].job;
            j < |after.tickets| && after.tickets[j] == if s.tickets[j].Running? then Settled(s.tickets[j].size, Failed(thrown)) else s.tickets[j]
  {
    assert s.stack[|s.stack| - 1].job in s.started;
  }

  /** Nothing leaks: when every accepted job has settled, no bytes are held, nobody is inside
      gzip, and only unused reservations still count. */
  lemma {:induction false} NothingLeaks(l: Limits, states: seq<State>, events: seq<Event>, at: nat)
    requires Acceptable(l) && IsRun(l, states, events) && at < |states|
    requires forall j: nat :: j in states[at].submitted ==> j in states[at].settled
    ensures var s := states[at];
            s.active == 0 && s.pending == [] && s.retainedBytes == 0 && s.jobs == Weigh(s.tickets, Unused)
  {
    RunConsistent(l, states, events, at);
    var s := states[at];
    AllZero(s.tickets, Inside);
    AllZero(s.tickets, Held);
    AllZero(s.tickets, Waiting);
  }

  lemma {:induction false} AllZero(ts: seq<Ticket>, c: Column)
    requires forall i | 0 <= i < |ts| :: Weight(ts[i], c) == 0
    ensures Weigh(ts, c) == 0
  {
    if ts != [] {
      AllZero(ts[..|ts| - 1], c);
    }
  }

  /** A start whose `gzipFn` returns at once, without calling back. */
  lemma {:induction false} StartThenReturn(l: Limits, s: State)
    requires s.stack != [] && s.stack[|s.stack| - 1].Looping? && s.active < l.maxActive && s.pending != []
    ensures var after := Returned(Pumping(l, s));
            after == s.(active := s.active + 1, pending := s.pending[1..], started := s.started + [s.pending[0]],
                        tickets := after.tickets)
  {
  }

  /** The n oldest waiting jobs have started, and nothing else changed that a caller sees. */
  predicate StartedBy(before: State, after: State, n: nat) {
    && n <= |before.pending| && after.active == before.active + n
    && after.pending == before.pending[n..] && after.started == before.started + before.pending[..n]
    && after.stack == before.stack && after.jobs == before.jobs && after.retainedBytes == before.retainedBytes
    && after.submitted == before.submitted && after.settled == before.settled
  }

  lemma {:induction false} OneFurther(before: State, mid: State, after: State, n: nat)
    requires StartedBy(before, mid, n) && StartedBy(mid, after, 1)
    ensures StartedBy(before, after, n + 1)
  {
    var was, began := before.pending, before.started;
    assert was[n..][1..] == was[n + 1..] && was[n..][..1] == [was[n]];
    assert (began + was[..n]) + [was[n]] == began + was[..n + 1];
  }

  // ---------------------------------------------------------------- the queue

  /** What compress() answers at once: a promise of its own, or a rejection. */
  datatype Admission = Promised | AlreadyUsed | OverCapacity

  class AsyncGzipQueue {
    const limits: Limits
    var active: int
    var jobs: int
    var retainedBytes: int
    var pending: seq<nat>
    var tickets: seq<Ticket>
    var stack: seq<Frame>
    ghost var submitted: seq<nat>
    ghost var started: seq<nat>
    ghost var settled: seq<nat>

    ghost function Snapshot(): State
      reads this
    {
      State(active, jobs, retainedBytes, pending, tickets, stack, submitted, started, settled)
    }

    ghost predicate Valid()
      reads this
    {
      Acceptable(limits) && Consistent(limits, Snapshot())
    }

    constructor (l: Limits)
      requires Acceptable(l)
      ensures limits == l && Snapshot() == Start() && Valid()
    {
      limits := l;
      active, jobs, retainedBytes := 0, 0, 0;
      pending, tickets, stack := [], [], [];
      submitted, started, settled := [], [], [];
    }

    /** Construction refuses limits that are not usable. */
    static method Create(l: Limits) returns (q: Option<AsyncGzipQueue>)
      ensures q.Some? <==> Acceptable(l)
      ensures q.Some? ==> fresh(q.value) && q.value.limits == l && q.value.Snapshot() == Start() && q.value.Valid()
    {
      if l.maxActive < 1 || l.maxJobs < l.maxActive || l.maxRetainedBytes < 1 {
        return None;
      }
      var queue := new AsyncGzipQueue(l);
      return Some(queue);
    }

    method Reserve() returns (ticket: Option<nat>)
      requires Valid() && Outside(Snapshot())
      modifies this
      ensures Valid() && Snapshot() == Reserving(limits, old(Snapshot()))
      ensures ticket == if old(jobs) < limits.maxJobs then Some(|old(tickets)|) else None
    {
      ReservingConsistent(limits, Snapshot());
      if jobs >= limits.maxJobs {
        return None;
      }
      jobs := jobs + 1;
      tickets := tickets + [Reserved];
      return Some(|tickets| - 1);
    }

    /** Up to the call of pump(), which is left on the stack. */
    method Compress(t: nat, size: nat) returns (answer: Admission)
      requires Valid() && Outside(Snapshot()) && t < |tickets|
      modifies this
      ensures Valid() && Snapshot() == Compressing(limits, old(Snapshot()), t, size)
      ensures answer == if old(tickets)[t] != Reserved then AlreadyUsed
                        else if old(retainedBytes) + size > limits.maxRetainedBytes then OverCapacity
                        else Promised
      ensures answer == Promised <==> submitted == old(submitted) + [t]
    {
      CompressingConsistent(limits, Snapshot(), t, size);
      if tickets[t] != Reserved {
        return AlreadyUsed;
      }
      if size > limits.maxRetainedBytes - retainedBytes {
        tickets := tickets[t := Released];
        jobs := jobs - 1;
        return OverCapacity;
      }
      tickets := tickets[t := Queued(size)];
      retainedBytes := retainedBytes + size;
      pending := pending + [t];
      submitted := submitted + [t];
      stack := stack + [Looping];
      return Promised;
    }

    method Release(t: nat)
      requires Valid() && Outside(Snapshot()) && t < |tickets|
      modifies this
      ensures Valid() && Snapshot() == Releasing(old(Snapshot()), t)
    {
      ReleasingConsistent(limits, Snapshot(), t);
      if tickets[t] != Reserved {
        return;
      }
      tickets := tickets[t := Released];
      jobs := jobs - 1;
    }

    /** A callback of a started job, up to its call of pump(). */
    method Finish(j: nat, error: Option<string>, result: Option<Bytes>)
      requires Valid() && j in started
      modifies this
      ensures Valid() && Snapshot() == Finishing(old(Snapshot()), j, Answer(error, result))
    {
      FinishingConsistent(limits, Snapshot(), j, Answer(error, result));
      if !tickets[j].Running? {
        return;
      }
      active := active - 1;
      jobs := jobs - 1;
      retainedBytes := retainedBytes - tickets[j].size;
      tickets := tickets[j := Settled(tickets[j].size, Answer(error, result))];
      settled := settled + [j];
      stack := stack + [Looping];
    }

    /** One test of the pump's loop and, if it passes, the start of a job. */
    method PumpOnce()
      requires Valid() && stack != []
      modifies this
      ensures Valid() && Snapshot() == Pumping(limits, old(Snapshot()))
      ensures old(active) >= limits.maxActive || old(pending) == [] ==>
                Snapshot() == old(Snapshot()).(stack := old(stack)[..|old(stack)| - 1])
    {
      PumpingConsistent(limits, Snapshot());
      ghost var before := Snapshot();
      var below := stack[..|stack| - 1];
      if active >= limits.maxActive || pending == [] {
        stack := below;
        return;
      }
      var j := pending[0];
      assert j in pending;
      pending := pending[1..];
      active := active + 1;
      tickets := tickets[j := Running(tickets[j].size)];
      started := started + [j];
      stack := below + [Calling(j)];
    }

    /** `gzipFn` returns to the pump that called it. */
    method Return()
      requires Valid() && stack != []
      modifies this
      ensures Valid() && Snapshot() == Returned(old(Snapshot()))
    {
      ReturnedConsistent(limits, Snapshot());
      stack := stack[..|stack| - 1] + [Looping];
    }

    /** `gzipFn` throws: the pump that called it finishes the job with the error. */
    method Throw(thrown: string)
      requires Valid() && stack != [] && Outside(Snapshot())
      modifies this
      ensures Valid() && Snapshot() == Step(limits, old(Snapshot()), Event.Throw(thrown))
    {
      var j := stack[|stack| - 1].job;
      Return();
      Finish(j, Some(thrown), None);
    }

    /** The oldest waiting job starts, and `gzipFn` returns without calling back. */
    method StartNext()
      requires Valid() && stack != [] && stack[|stack| - 1].Looping? && active < limits.maxActive && pending != []
      modifies this
      ensures Valid() && StartedBy(old(Snapshot()), Snapshot(), 1)
    {
      StartThenReturn(limits, Snapshot());
      PumpOnce();
      Return();
    }

    /** The loop of pump() when `gzipFn` only starts work, as the default one does. */
    method StartAll() returns (ghost n: nat)
      requires Valid() && stack != [] && stack[|stack| - 1].Looping?
      modifies this
      ensures Valid() && StartedBy(old(Snapshot()), Snapshot(), n)
      ensures active >= limits.maxActive || pending == []
    {
      ghost var before := Snapshot();
      n := 0;
      while active < limits.maxActive && pending != []
        invariant Valid() && StartedBy(before, Snapshot(), n)
        decreases |pending|
      {
        ghost var mid := Snapshot();
        StartNext();
        OneFurther(before, mid, Snapshot(), n);
        n := n + 1;
      }
    }

    /** A whole such pump(): as many of the oldest waiting jobs start as there are free workers. */
    method PumpAsynchronous()
      requires Valid() && stack != [] && stack[|stack| - 1].Looping?
      modifies this
      ensures Valid() && stack == old(stack)[..|old(stack)| - 1]
      ensures var free := limits.maxActive - old(active);
              StartedBy(old(Snapshot()), Snapshot().(stack := old(stack)), Min(free, |old(pending)|))
    {
      ghost var n := StartAll();
      PumpOnce();
    }
  }
}
