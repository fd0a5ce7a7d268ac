/** The rate limiter seen from outside: every answer, from the log of the calls alone. */
module LimiterLog {
  import opened Basics
  import opened RateLimiter

  const FRESH := Maps(map[], map[], map[], map[])

  /** Calls in order of time, none of them after `latest`. */
  predicate InTime(calls: seq<Call>, latest: int) {
    calls == [] || (InTime(calls[..|calls| - 1], calls[|calls| - 1].at) && calls[|calls| - 1].at <= latest)
  }

  /** What a call is told when these calls were made before it. */
  function Answer(calls: seq<Call>, b: Bucket, rawKey: string, at: int, consume: bool): Decision {
    var (m, total) := Calls(FRESH, 0, calls);
    Consulted(m, total, b, rawKey, at, consume).2
  }

  /** The row it uses: the caller's own, or the shared one when the map is full. */
  function RowUsed(calls: seq<Call>, b: Bucket, rawKey: string, at: int): string {
    BoundedKey(RowsOf(Calls(FRESH, 0, calls).0, b), rawKey, at - WindowOf(b), at).1
  }

  /** The times of the accepted consuming calls that used one row. */
  function Accepted(calls: seq<Call>, b: Bucket, row: string): Stamps {
    if calls == [] then [] else
      var front, c := calls[..|calls| - 1], calls[|calls| - 1];
      Accepted(front, b, row) + (if Adds(front, c, b, row) then [c.at] else [])
  }

  predicate Adds(calls: seq<Call>, c: Call, b: Bucket, row: string) {
    c.bucket == b && c.consume && RowUsed(calls, b, c.rawKey, c.at) == row && Answer(calls, b, c.rawKey, c.at, true).ok
  }

  // ---------------------------------------------------------------- the log is the history

  function Nothing(): Past { b => map[] }

  function Held(calls: seq<Call>): Past { Pasts(FRESH, 0, Nothing(), calls) }

  lemma {:induction false} OneMoreStamp(m: Maps, total: nat, past: Past, c: Bucket, rawKey: string, at: int,
                                        consume: bool, b: Bucket, row: string)
    ensures var d := Consulted(m, total, c, rawKey, at, consume).2;
            var used := BoundedKey(RowsOf(m, c), rawKey, at - WindowOf(c), at).1;
            Get(NextPast(m, past, c, rawKey, at, consume)(b), row)
            == Get(past(b), row) + (if c == b && consume && used == row && d.ok then [at] else [])
  {
  }

  lemma {:induction false} StampStep(front: seq<Call>, c: Call, b: Bucket, row: string)
    ensures Get(Held(front + [c])(b), row) == Get(Held(front)(b), row) + (if Adds(front, c, b, row) then [c.at] else [])
  {
    assert (front + [c])[..|front|] == front;
    var (m, total) := Calls(FRESH, 0, front);
    OneMoreStamp(m, total, Held(front), c.bucket, c.rawKey, c.at, c.consume, b, row);
  }

  lemma {:induction false} AcceptedStep(front: seq<Call>, c: Call, b: Bucket, row: string)
    ensures Accepted(front + [c], b, row) == Accepted(front, b, row) + (if Adds(front, c, b, row) then [c.at] else [])
  {
    assert (front + [c])[..|front|] == front;
  }

  /** Two lists that grow alike are the same. */
  lemma {:induction false} GrowAlike(calls: seq<Call>, one: seq<Call> -> Stamps, other: seq<Call> -> Stamps,
                                     more: (seq<Call>, Call) -> Stamps)
    requires one([]) == other([])
    requires forall front, c :: one(front + [c]) == one(front) + more(front, c)
    requires forall front, c :: other(front + [c]) == other(front) + more(front, c)
    ensures one(calls) == other(calls)
  {
    if calls != [] {
      GrowAlike(calls[..|calls| - 1], one, other, more);
      assert calls == calls[..|calls| - 1] + [calls[|calls| - 1]];
    }
  }

  lemma {:induction false} LogIsHistory(calls: seq<Call>, b: Bucket, row: string)
    ensures Get(Held(calls)(b), row) == Accepted(calls, b, row)
  {
    assert Held([])(b) == map[];
    var one := (calls: seq<Call>) => Get(Held(calls)(b), row);
    var other := (calls: seq<Call>) => Accepted(calls, b, row);
    var more := (front: seq<Call>, c: Call) => if Adds(front, c, b, row) then [c.at] else [];
    forall front, c
      ensures one(front + [c]) == one(front) + more(front, c)
    {
      StampStep(front, c, b, row);
    }
    forall front, c
      ensures other(front + [c]) == other(front) + more(front, c)
    {
      AcceptedStep(front, c, b, row);
    }
    GrowAlike(calls, one, other, more);
  }

  lemma {:induction false} NothingKept(start: int)
    ensures AllKept(FRESH, Nothing(), start)
  {
    forall b: Bucket
      ensures Kept(FRESH, Nothing(), b, start)
    {
      assert RowsOf(FRESH, b) == map[];
    }
  }

  lemma {:induction false} LogKept(calls: seq<Call>, latest: int)
    requires InTime(calls, latest)
    ensures AllKept(Calls(FRESH, 0, calls).0, Held(calls), LastTime(calls, latest)) && LastTime(calls, latest) <= latest
  {
    if calls == [] {
      NothingKept(latest);
    } else {
      var front, c := calls[..|calls| - 1], calls[|calls| - 1];
      LogKept(front, c.at);
      var (m, total) := Calls(FRESH, 0, front);
      ConsultedKept(m, Held(front), total, LastTime(front, c.at), c.bucket, c.rawKey, c.at, c.consume);
    }
  }

  lemma {:induction false} AcceptedInTime(calls: seq<Call>, b: Bucket, row: string, latest: int)
    requires InTime(calls, latest)
    ensures Ordered(Accepted(calls, b, row)) && UpTo(Accepted(calls, b, row), latest)
  {
    if calls != [] {
      AcceptedInTime(calls[..|calls| - 1], b, row, calls[|calls| - 1].at);
    }
  }

  lemma {:induction false} AnswersAt(maps: Maps, past: Past, total: nat, now: int, b: Bucket, rawKey: string,
                                     at: int, consume: bool)
    requires Kept(maps, past, b, now) && now <= at
    ensures Consulted(maps, total, b, rawKey, at, consume).2
         == Decide(Get(past(b), BoundedKey(RowsOf(maps, b), rawKey, at - WindowOf(b), at).1), MaxOf(b), WindowOf(b), at)
  {
    BucketKept(maps, past, now, b, rawKey, at, consume);
  }

  lemma {:induction false} OneLogKept(calls: seq<Call>, b: Bucket, latest: int)
    requires InTime(calls, latest)
    ensures Kept(Calls(FRESH, 0, calls).0, Held(calls), b, LastTime(calls, latest)) && LastTime(calls, latest) <= latest
  {
    LogKept(calls, latest);
  }

  lemma {:induction false} AnswerFromHistory(calls: seq<Call>, b: Bucket, rawKey: string, at: int, consume: bool)
    requires InTime(calls, at)
    ensures Answer(calls, b, rawKey, at, consume)
         == Decide(Get(Held(calls)(b), RowUsed(calls, b, rawKey, at)), MaxOf(b), WindowOf(b), at)
  {
    OneLogKept(calls, b, at);
    var (m, total) := Calls(FRESH, 0, calls);
    AnswersAt(m, Held(calls), total, LastTime(calls, at), b, rawKey, at, consume);
  }

  // ---------------------------------------------------------------- what an answer says

  /** The stamps inside a window are the last ones. */
  lemma {:induction false} ActiveIsTail(s: Stamps, n: nat, cutoff: int, at: int)
    requires n <= |s| && UpTo(s, at)
    requires (forall k | 0 <= k < n :: s[k] <= cutoff) && (forall k | n <= k < |s| :: s[k] > cutoff)
    ensures Active(s, cutoff, at) == s[n..]
  {
    if n < |s| {
      var front := s[..|s| - 1];
      ActiveIsTail(front, n, cutoff, at);
      assert s[n..] == front[n..] + [s[|s| - 1]];
    } else if s != [] {
      ActiveIsTail(s[..|s| - 1], n - 1, cutoff, at);
      assert s[..|s| - 1][n - 1..] == [] && s[n..] == [];
    }
  }

  /** The least whole number of seconds, but at least one, after which a time is reached. */
  predicate Waits(seconds: int, ms: int) {
    seconds >= 1 && (seconds > 1 ==> 1000 * (seconds - 1) < ms) && 1000 * seconds >= ms
  }

  lemma {:induction false} WaitIsLeast(ms: int)
    ensures Waits(Max(1, Seconds(ms)), ms)
  {
  }

  function LimitOf(b: Bucket): nat {
    if b == RawIp || b == AuthLicense then 30 else if b == License then 12 else 60
  }

  function SpanOf(b: Bucket): nat { if b == RawIp then 60 * 1000 else 60 * 60 * 1000 }

  /** The first n stamps are a window old, the others younger. */
  predicate Splits(s: Stamps, n: nat, cutoff: int) {
    n <= |s| && (forall k | 0 <= k < n :: s[k] <= cutoff) && (forall k | n <= k < |s| :: s[k] > cutoff)
  }

  /** With n of the stamps at least a window old: passes exactly when fewer than the limit are
      younger; a refusal states the least number of seconds until the oldest of these is out
      of the window. */
  predicate Says(d: Decision, s: Stamps, n: nat, max: nat, window: nat, at: int)
    requires n <= |s|
  {
    && (d.ok <==> |s| - n < max) && (d.ok ==> d.retryAfterSeconds == 0)
    && (!d.ok ==> n < |s| && Waits(d.retryAfterSeconds, s[n] + window - at))
  }

  lemma {:induction false} DecideSays(s: Stamps, n: nat, max: nat, window: nat, at: int)
    requires max > 0 && UpTo(s, at) && Splits(s, n, at - window)
    ensures Says(Decide(s, max, window, at), s, n, max, window, at)
  {
    ActiveIsTail(s, n, at - window, at);
    if n < |s| {
      WaitIsLeast(s[n] + window - at);
    }
  }

  lemma {:induction false} LimitsAre(b: Bucket)
    ensures MaxOf(b) == LimitOf(b) && WindowOf(b) == SpanOf(b)
  {
  }

  /** Every answer of a limiter since its start, from the accepted calls of the row it uses. */
  lemma {:induction false} AnswerByLog(calls: seq<Call>, b: Bucket, rawKey: string, at: int, consume: bool, n: nat)
    requires InTime(calls, at)
    requires Splits(Accepted(calls, b, RowUsed(calls, b, rawKey, at)), n, at - SpanOf(b))
    ensures Says(Answer(calls, b, rawKey, at, consume), Accepted(calls, b, RowUsed(calls, b, rawKey, at)), n, LimitOf(b), SpanOf(b), at)
  {
    var row := RowUsed(calls, b, rawKey, at);
    AnswerFromHistory(calls, b, rawKey, at, consume);
    LogIsHistory(calls, b, row);
    AcceptedInTime(calls, b, row, at);
    LimitsAre(b);
    DecideSays(Accepted(calls, b, row), n, MaxOf(b), WindowOf(b), at);
  }

  // ---------------------------------------------------------------- whose row

  function RawKeys(calls: seq<Call>, b: Bucket): set<string> {
    if calls == [] then {} else
      var front, c := RawKeys(calls[..|calls| - 1], b), calls[|calls| - 1];
      if c.bucket == b then front + {c.rawKey} else front
  }

  predicate Few(keys: set<string>) { OVERFLOW !in keys && |keys| <= 4095 }

  lemma {:induction false} FewerAreFew(keys: set<string>, more: set<string>)
    requires Few(more) && keys <= more
    ensures Few(keys)
  {
    Fewer(keys, more);
  }

  lemma {:induction false} RoomForAll(rows: Rows, rawKey: string, cutoff: int, at: int, keys: set<string>)
    requires rows.Keys <= keys && rawKey in keys && Few(keys)
    ensures BoundedKey(rows, rawKey, cutoff, at) == (rows, rawKey)
  {
    if rawKey !in rows {
      Fewer(rows.Keys, keys - {rawKey});
      assert |rows| == |rows.Keys|;
    }
  }

  lemma {:induction false} KeysAfter(m: Maps, total: nat, c: Call, b: Bucket, keys: set<string>)
    requires RowsOf(m, b).Keys <= keys && (c.bucket == b ==> c.rawKey in keys) && Few(keys)
    ensures RowsOf(Consulted(m, total, c.bucket, c.rawKey, c.at, c.consume).0, b).Keys <= keys
  {
    var rows := RowsOf(m, c.bucket);
    var (after, d, _) := Inspected(rows, c.rawKey, MaxOf(c.bucket), WindowOf(c.bucket), c.at, c.consume);
    SettledKeys(m, total, c.bucket, after, d.ok && c.consume, c.at, b);
    if c.bucket == b {
      RoomForAll(rows, c.rawKey, c.at - WindowOf(b), c.at, keys);
    }
  }

  lemma {:induction false} KeysSeen(calls: seq<Call>, b: Bucket, keys: set<string>)
    requires RawKeys(calls, b) <= keys && Few(keys)
    ensures RowsOf(Calls(FRESH, 0, calls).0, b).Keys <= keys
  {
    if calls == [] {
      assert RowsOf(FRESH, b).Keys == {};
    } else {
      var front := calls[..|calls| - 1];
      KeysSeen(front, b, keys);
      var (m, total) := Calls(FRESH, 0, front);
      KeysAfter(m, total, calls[|calls| - 1], b, keys);
    }
  }

  /** While a bucket has seen no more than 4,095 different callers, each has a row of its own:
      an answer then depends on the caller's own accepted calls and on nobody else's. */
  lemma {:induction false} OwnRow(calls: seq<Call>, b: Bucket, rawKey: string, at: int)
    requires Few(RawKeys(calls, b) + {rawKey})
    ensures RowUsed(calls, b, rawKey, at) == rawKey
  {
    var keys := RawKeys(calls, b) + {rawKey};
    KeysSeen(calls, b, keys);
    RoomForAll(RowsOf(Calls(FRESH, 0, calls).0, b), rawKey, at - WindowOf(b), at, keys);
  }

  /** Otherwise a caller may share the overflow row, and no other. */
  lemma {:induction false} OverflowOnly(calls: seq<Call>, b: Bucket, rawKey: string, at: int)
    ensures RowUsed(calls, b, rawKey, at) == rawKey || RowUsed(calls, b, rawKey, at) == "!overflow"
  {
  }
}
