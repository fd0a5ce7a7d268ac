/** The feedback rate limiter: sliding windows over pruned rows with a shared overflow row,
    against histories that are never pruned. */
module RateLimiter {
  import opened Basics

  type Stamps = seq<int>
  type Rows = map<string, Stamps>

  const KEYS_MAX := 4096
  const SWEEP_EVERY := 256
  const SWEEP_WINDOW := 3_600_000
  const OVERFLOW := "!overflow"

  datatype Bucket = RawIp | AuthLicense | License | Ip

  function MaxOf(b: Bucket): nat {
    match b case RawIp => 30 case AuthLicense => 30 case License => 12 case Ip => 60
  }

  function WindowOf(b: Bucket): nat {
    if b.RawIp? then 60_000 else 3_600_000
  }

  datatype Decision = Decision(ok: bool, retryAfterSeconds: int)

  // ---------------------------------------------------------------- one row

  function Active(s: Stamps, cutoff: int, at: int): Stamps {
    if s == [] then [] else
      var front := Active(s[..|s| - 1], cutoff, at);
      if cutoff < s[|s| - 1] <= at then front + [s[|s| - 1]] else front
  }

  /** `Math.ceil(ms / 1000)`. */
  function Seconds(ms: int): int { (ms + 999) / 1000 }

  /** The answer a list of stamps gives. */
  function Decide(s: Stamps, max: nat, window: nat, at: int): Decision
    requires max > 0
  {
    var active := Active(s, at - window, at);
    if |active| >= max then Decision(false, Max(1, Seconds(active[0] + window - at))) else Decision(true, 0)
  }

  predicate Ordered(s: Stamps) { forall i, k | 0 <= i < k < |s| :: s[i] <= s[k] }
  predicate UpTo(s: Stamps, now: int) { forall i | 0 <= i < |s| :: s[i] <= now }

  /** Filtering early loses nothing a later filter would keep. */
  lemma {:induction false} ActiveTwice(s: Stamps, cutoff: int, at: int, cutoff': int, at': int)
    requires cutoff <= cutoff' && at <= at' && UpTo(s, at)
    ensures Active(Active(s, cutoff, at), cutoff', at') == Active(s, cutoff', at')
  {
    if s != [] {
      var front, last := s[..|s| - 1], s[|s| - 1];
      ActiveTwice(front, cutoff, at, cutoff', at');
      if cutoff < last <= at {
        assert (Active(front, cutoff, at) + [last])[..|Active(front, cutoff, at)|] == Active(front, cutoff, at);
      }
    }
  }

  lemma {:induction false} ActiveBounds(s: Stamps, cutoff: int, at: int)
    ensures |Active(s, cutoff, at)| <= |s|
    ensures forall i | 0 <= i < |Active(s, cutoff, at)| :: cutoff < Active(s, cutoff, at)[i] <= at && Active(s, cutoff, at)[i] in s
  {
    if s != [] {
      ActiveBounds(s[..|s| - 1], cutoff, at);
    }
  }

  /** A shorter window holds no more. */
  lemma {:induction false} ActiveNarrower(s: Stamps, cutoff: int, at: int, cutoff': int, at': int)
    requires cutoff <= cutoff' && UpTo(s, at)
    ensures |Active(s, cutoff', at')| <= |Active(s, cutoff, at)|
  {
    if s != [] {
      ActiveNarrower(s[..|s| - 1], cutoff, at, cutoff', at');
    }
  }

  lemma {:induction false} ActivePush(s: Stamps, stamp: int, cutoff: int, at: int)
    ensures Active(s + [stamp], cutoff, at)
         == (if cutoff < stamp <= at then Active(s, cutoff, at) + [stamp] else Active(s, cutoff, at))
  {
    assert (s + [stamp])[..|s|] == s;
  }

  /** With the first stamp out of the window at least one fewer is active. */
  lemma {:induction false} FirstExpires(s: Stamps, cutoff: int, at: int, cutoff': int, at': int)
    requires Ordered(s) && UpTo(s, at) && cutoff <= cutoff' && Active(s, cutoff, at) != []
    requires Active(s, cutoff, at)[0] <= cutoff'
    ensures |Active(s, cutoff', at')| < |Active(s, cutoff, at)|
  {
    var front := s[..|s| - 1];
    if Active(front, cutoff, at) == [] {
      ActiveNarrower(front, cutoff, at, cutoff', at');
    } else {
      FirstExpires(front, cutoff, at, cutoff', at');
    }
  }

  // ---------------------------------------------------------------- one bucket

  function Get(rows: Rows, key: string): Stamps { if key in rows then rows[key] else [] }

  predicate HasRoom(rows: Rows) { |rows| < KEYS_MAX - (if OVERFLOW in rows then 0 else 1) }

  function Purged(rows: Rows, cutoff: int, at: int): Rows {
    map id | id in rows && Active(rows[id], cutoff, at) != [] :: rows[id]
  }

  /** boundedKey: the row a raw key uses, and the rows after a purge of a full map. */
  function BoundedKey(rows: Rows, rawKey: string, cutoff: int, at: int): (Rows, string) {
    if rawKey in rows || HasRoom(rows) then (rows, rawKey)
    else
      var purged := Purged(rows, cutoff, at);
      (purged, if rawKey in purged || HasRoom(purged) then rawKey else OVERFLOW)
  }

  /** The answer of the row `key`, and the rows it leaves. */
  function Answered(rows: Rows, key: string, max: nat, window: nat, at: int, consume: bool): (Rows, Decision)
    requires max > 0
  {
    var active := Active(Get(rows, key), at - window, at);
    var d := Decide(Get(rows, key), max, window, at);
    (if !d.ok then rows[key := active]
     else if consume then rows[key := active + [at]]
     else if active != [] then rows[key := active]
     else rows - {key}, d)
  }

  /** inspect() without the periodic sweep: the new rows, the answer, and the row used. */
  function Inspected(rows: Rows, rawKey: string, max: nat, window: nat, at: int, consume: bool): (Rows, Decision, string)
    requires max > 0
  {
    var (bounded, key) := BoundedKey(rows, rawKey, at - window, at);
    var (after, d) := Answered(bounded, key, max, window, at, consume);
    (after, d, key)
  }

  function Swept(rows: Rows, at: int): Rows {
    map id | id in rows && Active(rows[id], at - SWEEP_WINDOW, at) != [] :: Active(rows[id], at - SWEEP_WINDOW, at)
  }

  // ---------------------------------------------------------------- the never-pruned history

  /** The accepted stamps of every row, never pruned. */
  type History = map<string, Stamps>

  function Recorded(history: History, key: string, d: Decision, at: int, consume: bool): History {
    if d.ok && consume then history[key := Get(history, key) + [at]] else history
  }

  /** A row and the history of its key: the same stamps in the window, none in the future. */
  predicate RowOk(row: Stamps, past: Stamps, window: nat, now: int) {
    && Active(row, now - window, now) == Active(past, now - window, now)
    && Ordered(past) && UpTo(past, now) && UpTo(row, now)
  }

  predicate Tracked(rows: Rows, history: History, window: nat, now: int, key: string) {
    RowOk(Get(rows, key), Get(history, key), window, now)
  }

  /** The acceptances in the window that ends at `t`. */
  function InWindow(s: Stamps, window: nat, t: int): nat { |Active(s, t - window, t)| }

  /** Any window of the history of a row holds at most `max` acceptances. */
  ghost predicate Bounded(history: History, max: nat, window: nat, key: string) {
    forall t: int :: InWindow(Get(history, key), window, t) <= max
  }

  ghost predicate BucketOk(rows: Rows, history: History, max: nat, window: nat, now: int) {
    && |rows| <= 4096 && (OVERFLOW !in rows ==> |rows| < 4096)
    && (forall key: string :: Tracked(rows, history, window, now, key))
    && (forall key: string :: Bounded(history, max, window, key))
  }

  lemma {:induction false} Later(rows: Rows, history: History, window: nat, now: int, at: int, key: string)
    requires Tracked(rows, history, window, now, key) && now <= at
    ensures Tracked(rows, history, window, at, key)
  {
    ActiveTwice(Get(rows, key), now - window, now, at - window, at);
    ActiveTwice(Get(history, key), now - window, now, at - window, at);
  }

  lemma {:induction false} AllLater(rows: Rows, history: History, max: nat, window: nat, now: int, at: int)
    requires BucketOk(rows, history, max, window, now) && now <= at
    ensures BucketOk(rows, history, max, window, at)
  {
    forall key: string
      ensures Tracked(rows, history, window, at, key)
    {
      Later(rows, history, window, now, at, key);
    }
  }

  lemma {:induction false} Fewer<K>(a: set<K>, b: set<K>)
    requires a <= b
    ensures |a| <= |b|
    ensures a != b ==> |a| < |b|
  {
    if x :| x in a {
      Fewer(a - {x}, b - {x});
    } else if y :| y in b {
      assert |b| == |b - {y}| + 1;
    }
  }

  lemma {:induction false} FewerRows(a: Rows, b: Rows)
    requires a.Keys <= b.Keys
    ensures |a| <= |b| && (a.Keys != b.Keys ==> |a| < |b|)
  {
    Fewer(a.Keys, b.Keys);
    assert |a| == |a.Keys| && |b| == |b.Keys|;
  }

  /** Dropping rows without active stamps, or their inactive stamps, changes no answer. */
  lemma {:induction false} Narrowed(rows: Rows, after: Rows, history: History, max: nat, window: nat, at: int)
    requires BucketOk(rows, history, max, window, at)
    requires after.Keys <= rows.Keys
    requires forall key: string :: Active(Get(after, key), at - window, at) == Active(Get(rows, key), at - window, at)
    requires forall key: string :: UpTo(Get(after, key), at)
    ensures BucketOk(after, history, max, window, at)
  {
    FewerRows(after, rows);
    forall key: string
      ensures Tracked(after, history, window, at, key)
    {
      assert Tracked(rows, history, window, at, key);
    }
  }

  lemma {:induction false} PurgeOk(rows: Rows, history: History, max: nat, window: nat, at: int)
    requires BucketOk(rows, history, max, window, at)
    ensures BucketOk(Purged(rows, at - window, at), history, max, window, at)
  {
    var after := Purged(rows, at - window, at);
    forall key: string
      ensures Active(Get(after, key), at - window, at) == Active(Get(rows, key), at - window, at) && UpTo(Get(after, key), at)
    {
      assert Tracked(rows, history, window, at, key);
    }
    Narrowed(rows, after, history, max, window, at);
  }

  lemma {:induction false} SweepOk(rows: Rows, history: History, max: nat, window: nat, at: int)
    requires BucketOk(rows, history, max, window, at) && window <= SWEEP_WINDOW
    ensures BucketOk(Swept(rows, at), history, max, window, at)
  {
    var after := Swept(rows, at);
    forall key: string
      ensures Active(Get(after, key), at - window, at) == Active(Get(rows, key), at - window, at) && UpTo(Get(after, key), at)
    {
      assert Tracked(rows, history, window, at, key);
      ActiveTwice(Get(rows, key), at - SWEEP_WINDOW, at, at - window, at);
      ActiveBounds(Get(rows, key), at - SWEEP_WINDOW, at);
    }
    Narrowed(rows, after, history, max, window, at);
  }

  /** One row changes, with its history, and the others do not. */
  lemma {:induction false} OneRow(rows: Rows, history: History, max: nat, window: nat, at: int, key: string,
                                  row: Stamps, past: Stamps)
    requires BucketOk(rows, history, max, window, at)
    requires key in rows || HasRoom(rows) || key == OVERFLOW
    requires RowOk(row, past, window, at)
    requires forall t: int :: InWindow(past, window, t) <= max
    ensures BucketOk(rows[key := row], history[key := past], max, window, at)
  {
    var after, told := rows[key := row], history[key := past];
    forall k: string
      ensures Tracked(after, told, window, at, k) && Bounded(told, max, window, k)
    {
      assert Tracked(rows, history, window, at, k) && Bounded(history, max, window, k);
      if k != key {
        assert Get(told, k) == Get(history, k) && Get(after, k) == Get(rows, k);
      }
    }
    assert after.Keys == rows.Keys + {key} && |after| == |after.Keys|;
  }

  lemma {:induction false} RowTidied(row: Stamps, past: Stamps, window: nat, at: int)
    requires RowOk(row, past, window, at)
    ensures RowOk(Active(row, at - window, at), past, window, at)
  {
    ActiveBounds(row, at - window, at);
    ActiveTwice(row, at - window, at, at - window, at);
  }

  /** Accepting one more in a row with room keeps every window within its maximum. */
  lemma {:induction false} WindowsBounded(past: Stamps, max: nat, window: nat, at: int)
    requires UpTo(past, at) && InWindow(past, window, at) < max
    requires forall t: int :: InWindow(past, window, t) <= max
    ensures forall t: int :: InWindow(past + [at], window, t) <= max
  {
    forall t: int
      ensures InWindow(past + [at], window, t) <= max
    {
      ActivePush(past, at, t - window, t);
      assert InWindow(past, window, t) <= max;
      if t >= at {
        ActiveNarrower(past, at - window, at, t - window, t);
      }
    }
  }

  lemma {:induction false} RowConsumed(row: Stamps, past: Stamps, window: nat, at: int)
    requires RowOk(row, past, window, at) && window > 0
    ensures RowOk(Active(row, at - window, at) + [at], past + [at], window, at)
  {
    var active := Active(row, at - window, at);
    RowTidied(row, past, window, at);
    ActivePush(active, at, at - window, at);
    ActivePush(past, at, at - window, at);
    PushOrdered(past, at);
    PushUpTo(active, at);
  }

  lemma {:induction false} PushUpTo(s: Stamps, at: int)
    requires UpTo(s, at)
    ensures UpTo(s + [at], at)
  {
  }

  lemma {:induction false} PushOrdered(s: Stamps, at: int)
    requires Ordered(s) && UpTo(s, at)
    ensures Ordered(s + [at]) && UpTo(s + [at], at)
  {
  }

  /** A row without active stamps is removed. */
  lemma {:induction false} RowRemoved(rows: Rows, history: History, max: nat, window: nat, at: int, key: string)
    requires BucketOk(rows, history, max, window, at)
    requires Active(Get(rows, key), at - window, at) == []
    ensures BucketOk(rows - {key}, history, max, window, at)
  {
    var after := rows - {key};
    forall k: string
      ensures Active(Get(after, k), at - window, at) == Active(Get(rows, k), at - window, at) && UpTo(Get(after, k), at)
    {
      assert Tracked(rows, history, window, at, k);
    }
    Narrowed(rows, after, history, max, window, at);
  }

  /** A history without a row and one with an empty row say the same. */
  lemma {:induction false} EmptyHistory(rows: Rows, history: History, max: nat, window: nat, at: int, key: string)
    requires BucketOk(rows, history[key := Get(history, key)], max, window, at)
    ensures BucketOk(rows, history, max, window, at)
  {
    var told := history[key := Get(history, key)];
    forall k: string
      ensures Tracked(rows, history, window, at, k) && Bounded(history, max, window, k)
    {
      assert Tracked(rows, told, window, at, k) && Bounded(told, max, window, k);
      assert Get(told, k) == Get(history, k);
    }
  }

  /** The row that inspect() leaves, from its active stamps. */
  lemma {:induction false} RowStep(rows: Rows, history: History, key: string, max: nat, window: nat, at: int,
                                   consume: bool)
    requires BucketOk(rows, history, max, window, at) && max > 0 && window > 0
    requires key in rows || HasRoom(rows) || key == OVERFLOW
    ensures var active := Active(Get(rows, key), at - window, at);
            var room := |active| < max;
            && (room && consume ==> BucketOk(rows[key := active + [at]], history[key := Get(history, key) + [at]], max, window, at))
            && (!(room && consume) ==> BucketOk(rows[key := active], history, max, window, at))
  {
    var row, past := Get(rows, key), Get(history, key);
    var active := Active(row, at - window, at);
    assert Tracked(rows, history, window, at, key) && Bounded(history, max, window, key);
    if |active| < max && consume {
      RowConsumed(row, past, window, at);
      WindowsBounded(past, max, window, at);
      OneRow(rows, history, max, window, at, key, active + [at], past + [at]);
    } else {
      RowTidied(row, past, window, at);
      OneRow(rows, history, max, window, at, key, active, past);
      EmptyHistory(rows[key := active], history, max, window, at, key);
    }
  }

  lemma {:induction false} AnsweredOk(rows: Rows, history: History, key: string, max: nat, window: nat, at: int,
                                      consume: bool)
    requires BucketOk(rows, history, max, window, at) && max > 0 && window > 0
    requires key in rows || HasRoom(rows) || key == OVERFLOW
    ensures var (after, d) := Answered(rows, key, max, window, at, consume);
            BucketOk(after, Recorded(history, key, d, at, consume), max, window, at)
  {
    RowStep(rows, history, key, max, window, at, consume);
    if Active(Get(rows, key), at - window, at) == [] {
      RowRemoved(rows, history, max, window, at, key);
    }
  }

  /** Refinement: each row answers exactly as its never-pruned history would. */
  lemma {:induction false} InspectOk(rows: Rows, history: History, rawKey: string, max: nat, window: nat, now: int,
                                     at: int, consume: bool)
    requires BucketOk(rows, history, max, window, now) && now <= at && max > 0 && window > 0
    ensures var (after, d, key) := Inspected(rows, rawKey, max, window, at, consume);
            && d == Decide(Get(history, key), max, window, at)
            && BucketOk(after, Recorded(history, key, d, at, consume), max, window, at)
  {
    AllLater(rows, history, max, window, now, at);
    var (bounded, key) := BoundedKey(rows, rawKey, at - window, at);
    if bounded != rows {
      PurgeOk(rows, history, max, window, at);
    }
    assert Tracked(bounded, history, window, at, key);
    AnsweredOk(bounded, history, key, max, window, at, consume);
  }

  lemma {:induction false} InspectAnswers(rows: Rows, history: History, rawKey: string, max: nat, window: nat,
                                          now: int, at: int, consume: bool)
    requires BucketOk(rows, history, max, window, now) && now <= at && max > 0 && window > 0
    ensures Inspected(rows, rawKey, max, window, at, consume).1
         == Decide(Get(history, BoundedKey(rows, rawKey, at - window, at).1), max, window, at)
  {
    InspectOk(rows, history, rawKey, max, window, now, at, consume);
  }

  // ---------------------------------------------------------------- waiting is enough

  /** A list that refuses accepts again after the stated seconds. */
  lemma {:induction false} RefusalEnds(past: Stamps, max: nat, window: nat, at: int, later: int)
    requires Ordered(past) && UpTo(past, at) && max > 0 && InWindow(past, window, at) <= max
    requires !Decide(past, max, window, at).ok && later >= at + 1000 * Decide(past, max, window, at).retryAfterSeconds
    ensures Decide(past, max, window, later).ok
  {
    FirstExpires(past, at - window, at, later - window, later);
  }

  lemma {:induction false} EmptyAccepts(past: Stamps, max: nat, window: nat, at: int, later: int)
    requires UpTo(past, at) && max > 0 && at <= later && Active(past, at - window, at) == []
    ensures Decide(past, max, window, later).ok
  {
    ActiveNarrower(past, at - window, at, later - window, later);
  }

  /** A refusal leaves the row it used; if that is the overflow row, the key has no row. */
  lemma {:induction false} RefusedRow(rows: Rows, rawKey: string, max: nat, window: nat, at: int, consume: bool)
    requires max > 0 && rawKey != OVERFLOW
    ensures var (denied, d, key) := Inspected(rows, rawKey, max, window, at, consume);
            !d.ok ==> key in denied && (key == rawKey || (key == OVERFLOW && rawKey !in denied))
  {
  }

  /** Whichever row the caller uses after waiting, its history has room by then. */
  lemma {:induction false} UsedRow(denied: Rows, history: History, rawKey: string, key: string, max: nat,
                                   window: nat, at: int, calm: Rows, later: int)
    requires BucketOk(denied, history, max, window, at) && max > 0 && rawKey != OVERFLOW && at <= later
    requires key in denied && (key == rawKey || (key == OVERFLOW && rawKey !in denied))
    requires var d := Decide(Get(history, key), max, window, at);
             !d.ok && later >= at + 1000 * d.retryAfterSeconds
    requires calm.Keys <= denied.Keys
    ensures Decide(Get(history, BoundedKey(calm, rawKey, later - window, later).1), max, window, later).ok
  {
    assert Tracked(denied, history, window, at, key);
    assert InWindow(Get(history, key), window, at) <= max by {
      assert Bounded(history, max, window, key);
    }
    RefusalEnds(Get(history, key), max, window, at, later);
    if key == rawKey {
      RoomStays(denied, calm, rawKey, later - window, later);
    } else {
      assert Tracked(denied, history, window, at, rawKey);
      EmptyAccepts(Get(history, rawKey), max, window, at, later);
    }
  }

  /** A refused caller who waits the stated seconds is accepted, if meanwhile the bucket
      recorded nothing and gave nobody else a row: whether the row it uses then is its own or
      the overflow row, and however the map was purged or swept. */
  lemma {:induction false} RetryIsEnough(rows: Rows, history: History, rawKey: string, max: nat, window: nat,
                                         now: int, at: int, consume: bool, calm: Rows, mid: int, later: int,
                                         consumeLater: bool)
    requires BucketOk(rows, history, max, window, now) && now <= at <= mid <= later && max > 0 && window > 0 && rawKey != OVERFLOW
    requires var (denied, d, _) := Inspected(rows, rawKey, max, window, at, consume);
             !d.ok && later >= at + 1000 * d.retryAfterSeconds && calm.Keys <= denied.Keys
    requires BucketOk(calm, history, max, window, mid)
    ensures Inspected(calm, rawKey, max, window, later, consumeLater).1.ok
  {
    InspectOk(rows, history, rawKey, max, window, now, at, consume);
    RefusedRow(rows, rawKey, max, window, at, consume);
    var (denied, _, key) := Inspected(rows, rawKey, max, window, at, consume);
    InspectAnswers(calm, history, rawKey, max, window, mid, later, consumeLater);
    UsedRow(denied, history, rawKey, key, max, window, at, calm, later);
  }

  /** A key that had its own row still gets one: nothing was added since, so if its row was
      purged there is room for it. */
  lemma {:induction false} RoomStays(denied: Rows, calm: Rows, rawKey: string, cutoff: int, at: int)
    requires rawKey in denied && calm.Keys <= denied.Keys
    requires |denied| <= KEYS_MAX && (OVERFLOW !in denied ==> |denied| < KEYS_MAX) && rawKey != OVERFLOW
    ensures BoundedKey(calm, rawKey, cutoff, at).1 == rawKey
  {
    if rawKey !in calm {
      Fewer(calm.Keys, denied.Keys - {rawKey});
      assert |calm| == |calm.Keys| && |denied| == |denied.Keys|;
      if OVERFLOW !in calm && OVERFLOW in denied {
        Fewer(calm.Keys, denied.Keys - {rawKey} - {OVERFLOW});
      }
    }
  }

  // ---------------------------------------------------------------- checking, then recording

  predicate Sized(rows: Rows) { |rows| <= KEYS_MAX && (OVERFLOW !in rows ==> |rows| < KEYS_MAX) }

  predicate Roomy(rows: Rows, rawKey: string) { rawKey in rows || HasRoom(rows) }

  predicate OnlyAdds(after: Rows, rows: Rows, key: string) { forall k | k in after :: k in rows || k == key }

  /** The row used later is the one used before, or the key's own, which was not there. */
  predicate SameOrNew(rows: Rows, rawKey: string, key: string, used: string) {
    key == used || (used == rawKey && rawKey !in rows)
  }

  /** A key that had its own row, or room for one, gets its own row as long as nobody else
      was given a row since. */
  lemma {:induction false} RoomAgain(bounded: Rows, calm: Rows, rawKey: string, cutoff: int, later: int)
    requires Sized(bounded) && rawKey != OVERFLOW
    requires Roomy(bounded, rawKey) && OnlyAdds(calm, bounded, rawKey)
    ensures BoundedKey(calm, rawKey, cutoff, later).1 == rawKey
  {
    if rawKey !in calm {
      assert |calm| == |calm.Keys| && |bounded| == |bounded.Keys|;
      Fewer(calm.Keys, bounded.Keys - {rawKey});
      if OVERFLOW !in calm && OVERFLOW in bounded {
        Fewer(calm.Keys, bounded.Keys - {rawKey} - {OVERFLOW});
      }
    }
  }

  /** A look leaves at most the rows that were there and the one it used; on the overflow
      row, the key has no row of its own. */
  lemma {:induction false} LookKeys(rows: Rows, rawKey: string, max: nat, window: nat, at: int)
    requires max > 0 && rawKey != OVERFLOW
    ensures var bounded := BoundedKey(rows, rawKey, at - window, at).0;
            var (after, _, key) := Inspected(rows, rawKey, max, window, at, false);
            && (key == rawKey ==> Roomy(bounded, rawKey) && OnlyAdds(after, bounded, rawKey))
            && (key != rawKey ==> key == OVERFLOW && rawKey !in after)
  {
  }

  lemma {:induction false} StillRoom(past: Stamps, max: nat, window: nat, at: int, later: int)
    requires UpTo(past, at) && max > 0 && at <= later && Decide(past, max, window, at).ok
    ensures Decide(past, max, window, later).ok
  {
    ActiveNarrower(past, at - window, at, later - window, later);
  }

  lemma {:induction false} BoundedSizes(rows: Rows, rawKey: string, cutoff: int, at: int)
    requires Sized(rows)
    ensures var bounded := BoundedKey(rows, rawKey, cutoff, at).0;
            Sized(bounded)
  {
    FewerRows(Purged(rows, cutoff, at), rows);
  }

  /** What checkAccepted lets pass, recordAccepted records, even if a sweep intervenes. */
  lemma {:induction false} CheckedIsRecorded(rows: Rows, history: History, rawKey: string, max: nat, window: nat,
                                             now: int, at: int, calm: Rows, later: int)
    requires BucketOk(rows, history, max, window, now) && now <= at <= later && max > 0 && window > 0 && rawKey != OVERFLOW
    requires Inspected(rows, rawKey, max, window, at, false).1.ok
    requires calm.Keys <= Inspected(rows, rawKey, max, window, at, false).0.Keys
    requires BucketOk(calm, history, max, window, at)
    ensures Inspected(calm, rawKey, max, window, later, true).1.ok
  {
    InspectOk(rows, history, rawKey, max, window, now, at, false);
    LookKeys(rows, rawKey, max, window, at);
    BoundedSizes(rows, rawKey, at - window, at);
    var (after, _, key) := Inspected(rows, rawKey, max, window, at, false);
    assert Tracked(after, history, window, at, key) && Tracked(after, history, window, at, rawKey);
    RecordedLater(BoundedKey(rows, rawKey, at - window, at).0, after, history, rawKey, key, max, window, at, calm, later);
  }

  lemma {:induction false} RecordedLater(bounded: Rows, after: Rows, history: History, rawKey: string, key: string,
                                         max: nat, window: nat, at: int, calm: Rows, later: int)
    requires Tracked(after, history, window, at, key) && Tracked(after, history, window, at, rawKey)
    requires Sized(bounded) && calm.Keys <= after.Keys && rawKey != OVERFLOW
    requires key == rawKey ==> Roomy(bounded, rawKey) && OnlyAdds(after, bounded, rawKey)
    requires key != rawKey ==> key == OVERFLOW && rawKey !in after
    requires BucketOk(calm, history, max, window, at) && at <= later && max > 0 && window > 0
    requires Decide(Get(history, key), max, window, at).ok
    ensures Inspected(calm, rawKey, max, window, later, true).1.ok
  {
    UsedAccepts(bounded, after, history, rawKey, key, max, window, at, calm, later);
    InspectAnswers(calm, history, rawKey, max, window, at, later, true);
  }

  lemma {:induction false} UsedAccepts(bounded: Rows, after: Rows, history: History, rawKey: string, key: string,
                                       max: nat, window: nat, at: int, calm: Rows, later: int)
    requires Tracked(after, history, window, at, key) && Tracked(after, history, window, at, rawKey)
    requires Sized(bounded) && calm.Keys <= after.Keys && rawKey != OVERFLOW
    requires key == rawKey ==> Roomy(bounded, rawKey) && OnlyAdds(after, bounded, rawKey)
    requires key != rawKey ==> key == OVERFLOW && rawKey !in after
    requires at <= later && max > 0 && Decide(Get(history, key), max, window, at).ok
    ensures Decide(Get(history, BoundedKey(calm, rawKey, later - window, later).1), max, window, later).ok
  {
    var used := BoundedKey(calm, rawKey, later - window, later).1;
    UsedAgain(bounded, after, calm, rawKey, key, used, later - window, later);
    SameAnswer(after, history, rawKey, key, used, max, window, at, later);
  }

  lemma {:induction false} UsedAgain(bounded: Rows, after: Rows, calm: Rows, rawKey: string, key: string,
                                     used: string, cutoff: int, later: int)
    requires Sized(bounded) && rawKey != OVERFLOW
    requires key == rawKey ==> Roomy(bounded, rawKey) && OnlyAdds(after, bounded, rawKey)
    requires key != rawKey ==> key == OVERFLOW && rawKey !in after
    requires calm.Keys <= after.Keys
    requires used == BoundedKey(calm, rawKey, cutoff, later).1
    ensures SameOrNew(after, rawKey, key, used)
  {
    if key == rawKey {
      RoomAgain(bounded, calm, rawKey, cutoff, later);
    }
  }

  lemma {:induction false} SameAnswer(after: Rows, history: History, rawKey: string, key: string, used: string,
                                      max: nat, window: nat, at: int, later: int)
    requires Tracked(after, history, window, at, key) && Tracked(after, history, window, at, rawKey)
    requires max > 0 && at <= later
    requires SameOrNew(after, rawKey, key, used)
    requires Decide(Get(history, key), max, window, at).ok
    ensures Decide(Get(history, used), max, window, later).ok
  {
    if key == used {
      StillRoom(Get(history, key), max, window, at, later);
    } else {
      EmptyAccepts(Get(history, rawKey), max, window, at, later);
    }
  }

  // ---------------------------------------------------------------- the limiter

  function Named(prefix: string, name: string): string {
    prefix + (if name == "" then "unknown" else name)
  }

  /** The loop of boundedKey() over a full map. */
  method Purge(rows: Rows, cutoff: int, at: int) returns (after: Rows)
    ensures after == Purged(rows, cutoff, at)
  {
    after := rows;
    var todo := rows.Keys;
    while todo != {}
      invariant todo <= rows.Keys && after.Keys <= rows.Keys
      invariant forall id :: id in after ==> id in rows && after[id] == rows[id]
      invariant forall id :: id in rows ==> (id in after <==> id in todo || Active(rows[id], cutoff, at) != [])
      decreases |todo|
    {
      var id :| id in todo;
      if Active(rows[id], cutoff, at) == [] {
        after := after - {id};
      }
      todo := todo - {id};
    }
  }

  /** The periodic sweep of one map. */
  method Sweep(rows: Rows, at: int) returns (after: Rows)
    ensures after == Swept(rows, at)
  {
    after := rows;
    var todo := rows.Keys;
    while todo != {}
      invariant todo <= rows.Keys && after.Keys <= rows.Keys
      invariant forall id :: id in todo ==> id in after && after[id] == rows[id]
      invariant forall id :: id in rows && id !in todo ==>
                  (id in after <==> Active(rows[id], at - SWEEP_WINDOW, at) != [])
                  && (id in after ==> after[id] == Active(rows[id], at - SWEEP_WINDOW, at))
      decreases |todo|
    {
      var id :| id in todo;
      var live := Active(rows[id], at - SWEEP_WINDOW, at);
      after := if live != [] then after[id := live] else after - {id};
      todo := todo - {id};
    }
  }

  /** boundedKey() with its loop. */
  method TakeKey(rows: Rows, rawKey: string, cutoff: int, at: int) returns (bounded: Rows, key: string)
    ensures (bounded, key) == BoundedKey(rows, rawKey, cutoff, at)
  {
    if rawKey in rows || HasRoom(rows) {
      return rows, rawKey;
    }
    bounded := Purge(rows, cutoff, at);
    key := if rawKey in bounded || HasRoom(bounded) then rawKey else OVERFLOW;
  }

  method InspectRows(rows: Rows, rawKey: string, max: nat, window: nat, at: int, consume: bool) returns (after: Rows, d: Decision)
    requires max > 0
    ensures var inspected := Inspected(rows, rawKey, max, window, at, consume);
            after == inspected.0 && d == inspected.1
  {
    var bounded, key := TakeKey(rows, rawKey, at - window, at);
    InspectedSteps(rows, rawKey, max, window, at, consume, bounded, key);
    var (answered, decision) := Answered(bounded, key, max, window, at, consume);
    return answered, decision;
  }

  lemma {:induction false} InspectedSteps(rows: Rows, rawKey: string, max: nat, window: nat, at: int, consume: bool,
                                          bounded: Rows, key: string)
    requires max > 0 && (bounded, key) == BoundedKey(rows, rawKey, at - window, at)
    ensures var (after, d) := Answered(bounded, key, max, window, at, consume);
            Inspected(rows, rawKey, max, window, at, consume) == (after, d, key)
  {
  }

  datatype Maps = Maps(rawByIp: Rows, authByLicense: Rows, byLicense: Rows, byIp: Rows)

  function RowsOf(maps: Maps, b: Bucket): Rows {
    match b
    case RawIp => maps.rawByIp
    case AuthLicense => maps.authByLicense
    case License => maps.byLicense
    case Ip => maps.byIp
  }

  function WithRows(maps: Maps, b: Bucket, rows: Rows): Maps {
    match b
    case RawIp => maps.(rawByIp := rows)
    case AuthLicense => maps.(authByLicense := rows)
    case License => maps.(byLicense := rows)
    case Ip => maps.(byIp := rows)
  }

  function AllSwept(maps: Maps, at: int): Maps {
    Maps(Swept(maps.rawByIp, at), Swept(maps.authByLicense, at), Swept(maps.byLicense, at), Swept(maps.byIp, at))
  }

  type Past = Bucket -> History

  function WithHistory(past: Past, b: Bucket, history: History): Past {
    c => if c == b then history else past(c)
  }

  ghost predicate Kept(maps: Maps, past: Past, b: Bucket, now: int) {
    BucketOk(RowsOf(maps, b), past(b), MaxOf(b), WindowOf(b), now)
  }

  ghost predicate AllKept(maps: Maps, past: Past, now: int) {
    forall b: Bucket :: Kept(maps, past, b, now)
  }

  /** The maps and the counter once bucket `b` has answered: every 256th consumed attempt
      sweeps all four. */
  function Settled(maps: Maps, attempts: nat, b: Bucket, rows: Rows, counts: bool, at: int): (Maps, nat) {
    var kept := WithRows(maps, b, rows);
    if !counts then (kept, attempts)
    else if (attempts + 1) % SWEEP_EVERY == 0 then (AllSwept(kept, at), attempts + 1)
    else (kept, attempts + 1)
  }

  /** One inspect() of bucket `b`. */
  function Consulted(maps: Maps, attempts: nat, b: Bucket, rawKey: string, at: int, consume: bool): (Maps, nat, Decision) {
    var (rows, d, _) := Inspected(RowsOf(maps, b), rawKey, MaxOf(b), WindowOf(b), at, consume);
    var (after, total) := Settled(maps, attempts, b, rows, d.ok && consume, at);
    (after, total, d)
  }

  lemma {:induction false} SettledOthers(maps: Maps, attempts: nat, b: Bucket, rows: Rows, counts: bool, at: int, other: Bucket)
    requires other != b
    ensures var (after, total) := Settled(maps, attempts, b, rows, counts, at);
            && total == attempts + (if counts then 1 else 0)
            && RowsOf(after, other) == if counts && total % 256 == 0 then Swept(RowsOf(maps, other), at) else RowsOf(maps, other)
  {
    OtherRows(maps, b, rows, other);
    SweptRows(WithRows(maps, b, rows), at, other);
  }

  lemma {:induction false} OtherRows(maps: Maps, b: Bucket, rows: Rows, other: Bucket)
    requires other != b
    ensures RowsOf(WithRows(maps, b, rows), other) == RowsOf(maps, other)
  {
  }

  lemma {:induction false} SweptRows(maps: Maps, at: int, other: Bucket)
    ensures RowsOf(AllSwept(maps, at), other) == Swept(RowsOf(maps, other), at)
  {
  }

  /** A call touches its own map, and every 256th accepted one sweeps all of them. */
  lemma {:induction false} OthersUntouched(maps: Maps, attempts: nat, b: Bucket, rawKey: string, at: int, consume: bool,
                                           other: Bucket)
    requires other != b
    ensures var (after, total, d) := Consulted(maps, attempts, b, rawKey, at, consume);
            && total == attempts + (if d.ok && consume then 1 else 0)
            && RowsOf(after, other)
               == if total > attempts && total % 256 == 0 then Swept(RowsOf(maps, other), at) else RowsOf(maps, other)
  {
    var (rows, d, _) := Inspected(RowsOf(maps, b), rawKey, MaxOf(b), WindowOf(b), at, consume);
    SettledOthers(maps, attempts, b, rows, d.ok && consume, at, other);
  }

  lemma {:induction false} AllSweptKept(maps: Maps, past: Past, at: int)
    requires AllKept(maps, past, at)
    ensures AllKept(AllSwept(maps, at), past, at)
  {
    forall c: Bucket
      ensures Kept(AllSwept(maps, at), past, c, at)
    {
      assert Kept(maps, past, c, at);
      SweepOk(RowsOf(maps, c), past(c), MaxOf(c), WindowOf(c), at);
    }
  }

  lemma {:induction false} OneKept(maps: Maps, past: Past, now: int, at: int, b: Bucket, rows: Rows, history: History)
    requires AllKept(maps, past, now) && now <= at
    requires BucketOk(rows, history, MaxOf(b), WindowOf(b), at)
    ensures AllKept(WithRows(maps, b, rows), WithHistory(past, b, history), at)
  {
    forall c: Bucket
      ensures Kept(WithRows(maps, b, rows), WithHistory(past, b, history), c, at)
    {
      assert Kept(maps, past, c, now);
      if c != b {
        AllLater(RowsOf(maps, c), past(c), MaxOf(c), WindowOf(c), now, at);
      }
    }
  }

  lemma {:induction false} SettledKept(maps: Maps, past: Past, attempts: nat, b: Bucket, rows: Rows, counts: bool,
                                       at: int)
    requires AllKept(WithRows(maps, b, rows), past, at)
    ensures AllKept(Settled(maps, attempts, b, rows, counts, at).0, past, at)
  {
    AllSweptKept(WithRows(maps, b, rows), past, at);
  }

  lemma {:induction false} BucketKept(maps: Maps, past: Past, now: int, b: Bucket, rawKey: string, at: int,
                                      consume: bool)
    requires Kept(maps, past, b, now) && now <= at
    ensures var (rows, d, key) := Inspected(RowsOf(maps, b), rawKey, MaxOf(b), WindowOf(b), at, consume);
            && key == BoundedKey(RowsOf(maps, b), rawKey, at - WindowOf(b), at).1
            && d == Decide(Get(past(b), key), MaxOf(b), WindowOf(b), at)
            && BucketOk(rows, Recorded(past(b), key, d, at, consume), MaxOf(b), WindowOf(b), at)
  {
    InspectOk(RowsOf(maps, b), past(b), rawKey, MaxOf(b), WindowOf(b), now, at, consume);
  }

  /** The histories once a call of bucket `b` is recorded. */
  function NextPast(maps: Maps, past: Past, b: Bucket, rawKey: string, at: int, consume: bool): Past {
    var (_, d, key) := Inspected(RowsOf(maps, b), rawKey, MaxOf(b), WindowOf(b), at, consume);
    WithHistory(past, b, Recorded(past(b), key, d, at, consume))
  }

  /** Every call keeps all four maps in step with their never-pruned histories, sweep included. */
  lemma {:induction false} ConsultedKept(maps: Maps, past: Past, attempts: nat, now: int, b: Bucket, rawKey: string,
                                         at: int, consume: bool)
    requires AllKept(maps, past, now) && now <= at
    ensures var key := BoundedKey(RowsOf(maps, b), rawKey, at - WindowOf(b), at).1;
            var (after, _, d) := Consulted(maps, attempts, b, rawKey, at, consume);
            && d == Decide(Get(past(b), key), MaxOf(b), WindowOf(b), at)
            && NextPast(maps, past, b, rawKey, at, consume) == WithHistory(past, b, Recorded(past(b), key, d, at, consume))
            && AllKept(after, NextPast(maps, past, b, rawKey, at, consume), at)
  {
    assert Kept(maps, past, b, now);
    BucketKept(maps, past, now, b, rawKey, at, consume);
    var (rows, d, key) := Inspected(RowsOf(maps, b), rawKey, MaxOf(b), WindowOf(b), at, consume);
    OneKept(maps, past, now, at, b, rows, Recorded(past(b), key, d, at, consume));
    SettledKept(maps, NextPast(maps, past, b, rawKey, at, consume), attempts, b, rows, d.ok && consume, at);
  }

  // ---------------------------------------------------------------- waiting, among other calls

  datatype Call = Call(bucket: Bucket, rawKey: string, at: int, consume: bool)

  /** The maps and the counter a sequence of calls leaves, and the histories. */
  function Calls(maps: Maps, attempts: nat, calls: seq<Call>): (Maps, nat) {
    if calls == [] then (maps, attempts) else
      var (c, (m, total)) := (calls[|calls| - 1], Calls(maps, attempts, calls[..|calls| - 1]));
      var (after, count, _) := Consulted(m, total, c.bucket, c.rawKey, c.at, c.consume);
      (after, count)
  }

  function Pasts(maps: Maps, attempts: nat, past: Past, calls: seq<Call>): Past {
    if calls == [] then past else
      var (c, front) := (calls[|calls| - 1], calls[..|calls| - 1]);
      NextPast(Calls(maps, attempts, front).0, Pasts(maps, attempts, past, front), c.bucket, c.rawKey, c.at, c.consume)
  }

  predicate During(calls: seq<Call>, from: int, to: int) {
    && (forall i | 0 <= i < |calls| :: from <= calls[i].at <= to)
    && (forall i, k | 0 <= i < k < |calls| :: calls[i].at <= calls[k].at)
  }

  function LastTime(calls: seq<Call>, from: int): int { if calls == [] then from else calls[|calls| - 1].at }

  /** Nothing is consumed from the bucket; from the other three anything may be. */
  predicate Spares(calls: seq<Call>, b: Bucket) {
    forall i | 0 <= i < |calls| && calls[i].bucket == b :: !calls[i].consume
  }

  lemma {:induction false} AnsweredKeys(rows: Rows, key: string, max: nat, window: nat, at: int)
    requires max > 0
    ensures Answered(rows, key, max, window, at, false).0.Keys <= rows.Keys
  {
  }

  lemma {:induction false} BoundedKeys(rows: Rows, rawKey: string, cutoff: int, at: int)
    ensures BoundedKey(rows, rawKey, cutoff, at).0.Keys <= rows.Keys
  {
  }

  lemma {:induction false} LookedKeys(rows: Rows, rawKey: string, max: nat, window: nat, at: int)
    requires max > 0
    ensures Inspected(rows, rawKey, max, window, at, false).0.Keys <= rows.Keys
  {
    BoundedKeys(rows, rawKey, at - window, at);
    var (bounded, key) := BoundedKey(rows, rawKey, at - window, at);
    AnsweredKeys(bounded, key, max, window, at);
  }

  lemma {:induction false} SettledKeys(maps: Maps, attempts: nat, c: Bucket, rows: Rows, counts: bool, at: int,
                                       b: Bucket)
    ensures RowsOf(Settled(maps, attempts, c, rows, counts, at).0, b).Keys <= (if b == c then rows else RowsOf(maps, b)).Keys
  {
  }

  /** One more call gives the bucket's rows to nobody new, if it does not consume from it. */
  lemma {:induction false} OneCallSpares(maps: Maps, attempts: nat, c: Call, b: Bucket)
    requires c.bucket == b ==> !c.consume
    ensures RowsOf(Consulted(maps, attempts, c.bucket, c.rawKey, c.at, c.consume).0, b).Keys <= RowsOf(maps, b).Keys
  {
    var (rows, d, _) := Inspected(RowsOf(maps, c.bucket), c.rawKey, MaxOf(c.bucket), WindowOf(c.bucket), c.at, c.consume);
    SettledKeys(maps, attempts, c.bucket, rows, d.ok && c.consume, c.at, b);
    if c.bucket == b {
      LookedKeys(RowsOf(maps, b), c.rawKey, MaxOf(b), WindowOf(b), c.at);
    }
  }

  lemma {:induction false} NextSpares(maps: Maps, past: Past, c: Call, b: Bucket)
    requires c.bucket == b ==> !c.consume
    ensures NextPast(maps, past, c.bucket, c.rawKey, c.at, c.consume)(b) == past(b)
  {
  }

  lemma {:induction false} CallsSpare(maps: Maps, attempts: nat, past: Past, calls: seq<Call>, b: Bucket, now: int,
                                      to: int)
    requires AllKept(maps, past, now) && now <= to && During(calls, now, to) && Spares(calls, b)
    ensures var (after, histories) := (Calls(maps, attempts, calls).0, Pasts(maps, attempts, past, calls));
            && AllKept(after, histories, LastTime(calls, now)) && now <= LastTime(calls, now) <= to
            && histories(b) == past(b) && RowsOf(after, b).Keys <= RowsOf(maps, b).Keys
  {
    if calls != [] {
      var front, c := calls[..|calls| - 1], calls[|calls| - 1];
      CallsSpare(maps, attempts, past, front, b, now, to);
      var (m, total) := Calls(maps, attempts, front);
      var before := Pasts(maps, attempts, past, front);
      ConsultedKept(m, before, total, LastTime(front, now), c.bucket, c.rawKey, c.at, c.consume);
      OneCallSpares(m, total, c, b);
      NextSpares(m, before, c, b);
    }
  }

  /** The same over the limiter's own calls: whatever is consumed from the other three
      buckets meanwhile, and whatever sweeps that causes, a refused caller who waits the
      stated seconds is accepted. */
  lemma {:induction false} RetryAmongCalls(maps: Maps, past: Past, attempts: nat, now: int, b: Bucket,
                                           rawKey: string, at: int, consume: bool, calls: seq<Call>, later: int,
                                           consumeLater: bool)
    requires AllKept(maps, past, now) && now <= at && rawKey != OVERFLOW
    requires var d := Consulted(maps, attempts, b, rawKey, at, consume).2;
             !d.ok && later >= at + 1000 * d.retryAfterSeconds
    requires During(calls, at, later) && Spares(calls, b)
    ensures var (denied, total, _) := Consulted(maps, attempts, b, rawKey, at, consume);
            var (m, count) := Calls(denied, total, calls);
            Consulted(m, count, b, rawKey, later, consumeLater).2.ok
  {
    assert Kept(maps, past, b, now);
    BucketKept(maps, past, now, b, rawKey, at, consume);
    var (rows, _, _) := Inspected(RowsOf(maps, b), rawKey, MaxOf(b), WindowOf(b), at, consume);
    OneKept(maps, past, now, at, b, rows, past(b));
    var denied := WithRows(maps, b, rows);
    SameHistories(denied, past, b, at);
    CallsSpare(denied, attempts, past, calls, b, at, later);
    var (m, _) := Calls(denied, attempts, calls);
    assert Kept(m, Pasts(denied, attempts, past, calls), b, LastTime(calls, at));
    RetryIsEnough(RowsOf(maps, b), past(b), rawKey, MaxOf(b), WindowOf(b), now, at, consume,
                  RowsOf(m, b), LastTime(calls, at), later, consumeLater);
  }

  lemma {:induction false} SameHistories(maps: Maps, past: Past, b: Bucket, at: int)
    requires AllKept(maps, WithHistory(past, b, past(b)), at)
    ensures AllKept(maps, past, at)
  {
    forall c: Bucket
      ensures Kept(maps, past, c, at)
    {
      assert Kept(maps, WithHistory(past, b, past(b)), c, at);
    }
  }

  class FeedbackRateLimiter {
    var rawByIp: Rows
    var authByLicense: Rows
    var byLicense: Rows
    var byIp: Rows
    var attempts: nat
    ghost var past: Past
    ghost var clock: int

    function Snapshot(): Maps
      reads this
    {
      Maps(rawByIp, authByLicense, byLicense, byIp)
    }

    ghost predicate Valid()
      reads this
    {
      AllKept(Snapshot(), past, clock)
    }

    constructor (start: int)
      ensures Valid() && clock == start
    {
      rawByIp, authByLicense, byLicense, byIp := map[], map[], map[], map[];
      attempts := 0;
      past := _ => map[];
      clock := start;
    }

    method Store(b: Bucket, rows: Rows)
      modifies this
      ensures Snapshot() == WithRows(old(Snapshot()), b, rows)
      ensures attempts == old(attempts) && past == old(past) && clock == old(clock)
    {
      match b
      case RawIp => rawByIp := rows;
      case AuthLicense => authByLicense := rows;
      case License => byLicense := rows;
      case Ip => byIp := rows;
    }

    method SweepAll(at: int)
      modifies this
      ensures Snapshot() == AllSwept(old(Snapshot()), at)
      ensures attempts == old(attempts) && past == old(past) && clock == old(clock)
    {
      rawByIp := Sweep(rawByIp, at);
      authByLicense := Sweep(authByLicense, at);
      byLicense := Sweep(byLicense, at);
      byIp := Sweep(byIp, at);
    }

    method Settle(b: Bucket, rows: Rows, counts: bool, at: int)
      modifies this
      ensures (Snapshot(), attempts) == Settled(old(Snapshot()), old(attempts), b, rows, counts, at)
      ensures past == old(past) && clock == old(clock)
    {
      Store(b, rows);
      if counts {
        attempts := attempts + 1;
        if attempts % SWEEP_EVERY == 0 {
          SweepAll(at);
        }
      }
    }

    method Consult(b: Bucket, rawKey: string, at: int, consume: bool) returns (d: Decision)
      modifies this
      ensures (Snapshot(), attempts, d) == Consulted(old(Snapshot()), old(attempts), b, rawKey, at, consume)
      ensures past == old(past) && clock == old(clock)
    {
      var rows;
      rows, d := InspectRows(RowsOf(Snapshot(), b), rawKey, MaxOf(b), WindowOf(b), at, consume);
      Settle(b, rows, d.ok && consume, at);
    }

    /** inspect(): the answer is the one the never-pruned history of the row gives, and the
        other rows' histories stay. */
    method Inspect(b: Bucket, rawKey: string, at: int, consume: bool) returns (d: Decision)
      requires Valid() && clock <= at
      modifies this
      ensures Valid() && clock == at
      ensures (Snapshot(), attempts, d) == Consulted(old(Snapshot()), old(attempts), b, rawKey, at, consume)
      ensures var key := BoundedKey(RowsOf(old(Snapshot()), b), rawKey, at - WindowOf(b), at).1;
              && d == Decide(Get(old(past)(b), key), MaxOf(b), WindowOf(b), at)
              && past == WithHistory(old(past), b, Recorded(old(past)(b), key, d, at, consume))
    {
      ConsultedKept(Snapshot(), past, attempts, clock, b, rawKey, at, consume);
      ghost var key := BoundedKey(RowsOf(Snapshot(), b), rawKey, at - WindowOf(b), at).1;
      d := Consult(b, rawKey, at, consume);
      past := WithHistory(past, b, Recorded(past(b), key, d, at, consume));
      clock := at;
    }

    method TakeIpAttempt(ip: string, now: int) returns (d: Decision)
      requires Valid() && clock <= now
      modifies this
      ensures Valid() && clock == now
      ensures (Snapshot(), attempts, d) == Consulted(old(Snapshot()), old(attempts), RawIp, Named("ip:", ip), now, true)
      ensures d == Inspected(old(rawByIp), "ip:" + (if ip == "" then "unknown" else ip), 30, 60_000, now, true).1
    {
      d := Inspect(RawIp, Named("ip:", ip), now, true);
    }

    method TakeAuthenticatedAttempt(license: string, now: int) returns (d: Decision)
      requires Valid() && clock <= now
      modifies this
      ensures Valid() && clock == now
      ensures (Snapshot(), attempts, d)
           == Consulted(old(Snapshot()), old(attempts), AuthLicense, Named("license:", license), now, true)
      ensures d == Inspected(old(authByLicense), "license:" + (if license == "" then "unknown" else license), 30, 3_600_000, now, true).1
    {
      d := Inspect(AuthLicense, Named("license:", license), now, true);
    }

    /** Passes exactly when both accepted-report rows pass; a refusal states the longer wait. */
    method CheckAccepted(license: string, ip: string, now: int) returns (d: Decision)
      requires Valid() && clock <= now
      modifies this
      ensures Valid() && clock == now && attempts == old(attempts)
      ensures forall c: Bucket :: past(c) == old(past)(c)
      ensures var mine := Inspected(old(byLicense), Named("license:", license), 12, 3_600_000, now, false);
              var source := Inspected(old(byIp), Named("ip:", ip), 60, 3_600_000, now, false);
              && Snapshot() == old(Snapshot()).(byLicense := mine.0, byIp := source.0)
              && d.ok == (mine.1.ok && source.1.ok)
              && d.retryAfterSeconds == if d.ok then 0 else Max(mine.1.retryAfterSeconds, source.1.retryAfterSeconds)
    {
      var mine := Inspect(License, Named("license:", license), now, false);
      var source := Inspect(Ip, Named("ip:", ip), now, false);
      d := if mine.ok && source.ok then Decision(true, 0)
      else Decision(false, Max(mine.retryAfterSeconds, source.retryAfterSeconds));
    }

    method RecordAccepted(license: string, ip: string, now: int)
      requires Valid() && clock <= now
      modifies this
      ensures Valid() && clock == now
      ensures var (between, counted, _) := Consulted(old(Snapshot()), old(attempts), License, Named("license:", license), now, true);
              var (after, total, _) := Consulted(between, counted, Ip, Named("ip:", ip), now, true);
              Snapshot() == after && attempts == total
    {
      var mine := Inspect(License, Named("license:", license), now, true);
      var source := Inspect(Ip, Named("ip:", ip), now, true);
    }
  }
}
