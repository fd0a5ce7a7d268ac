/** Customer sign-in tokens and sessions: two pruned tables against a table-free reference. */
module SessionStore {
  import opened Basics

  // The reference reads each answer off the history of calls. Raw values stand for their hashes.

  const TOKEN_TTL := 15 * 60_000
  const SESSION_TTL := 30 * 24 * 60 * 60_000
  const TOUCH_INTERVAL := 60 * 60_000
  const DAY := 86_400_000

  datatype TokenRow = TokenRow(identity: string, created: int, expires: int, used: Option<int>)
  datatype SessionRow = SessionRow(identity: string, created: int, lastSeen: int, expires: int, revoked: Option<int>, ip: string)

  type Tokens = map<string, TokenRow>
  type Sessions = map<string, SessionRow>

  datatype Tables = Tables(tokens: Tokens, sessions: Sessions)

  datatype Call =
    | Mint(raw: string, identity: string)
    | Consume(raw: string)
    | Create(raw: string, identity: string, ip: string)
    | Validate(raw: string)
    | Revoke(raw: string)

  datatype Answer = Granted(identity: string) | Unknown | Used | Expired | Refused | Done

  predicate TokenCharacter(c: char) {
    'A' <= c <= 'Z' || 'a' <= c <= 'z' || '0' <= c <= '9' || c == '_' || c == '-'
  }

  predicate TokenShape(raw: string) {
    20 <= |raw| <= 128 && forall i | 0 <= i < |raw| :: TokenCharacter(raw[i])
  }

  /** A shape refuses what is too short or too long or has a foreign character, and passes every
      value the store draws: 43 characters of base64url. */
  lemma {:induction false} ShapeMeans(raw: string)
    ensures !TokenShape(raw) <==> |raw| < 20 || |raw| > 128 || exists c :: c in raw && !TokenCharacter(c)
    ensures |raw| == 43 && (forall c | c in raw :: TokenCharacter(c)) ==> TokenShape(raw)
  {
    if i :| 0 <= i < |raw| && !TokenCharacter(raw[i]) {
      assert raw[i] in raw;
    }
  }

  // ---------------------------------------------------------------- the store

  predicate DeadToken(t: TokenRow, now: int) { t.used.Some? || t.expires <= now - DAY }
  predicate DeadSession(s: SessionRow, now: int) { s.revoked.Some? || s.expires <= now }

  function LiveTokens(tokens: Tokens, now: int): Tokens {
    map h | h in tokens && !DeadToken(tokens[h], now) :: tokens[h]
  }

  function LiveSessions(sessions: Sessions, now: int): Sessions {
    map h | h in sessions && !DeadSession(sessions[h], now) :: sessions[h]
  }

  function Minting(tokens: Tokens, raw: string, identity: string, now: int): Tokens {
    LiveTokens(tokens, now)[raw := TokenRow(identity, now, now + TOKEN_TTL, None)]
  }

  function Consuming(tokens: Tokens, raw: string, now: int): (Tokens, Answer) {
    if !TokenShape(raw) || raw !in tokens then (tokens, Unknown)
    else if tokens[raw].used.Some? then (tokens, Used)
    else if tokens[raw].expires <= now then (tokens, Expired)
    else (tokens[raw := tokens[raw].(used := Some(now))], Granted(tokens[raw].identity))
  }

  function Creating(sessions: Sessions, raw: string, identity: string, ip: string, now: int): Sessions {
    LiveSessions(sessions, now)[raw := SessionRow(identity, now, now, now + SESSION_TTL, None, ip)]
  }

  function Validating(sessions: Sessions, raw: string, now: int): (Sessions, Answer) {
    if !TokenShape(raw) || raw !in sessions || DeadSession(sessions[raw], now) then (sessions, Refused)
    else
      var s := sessions[raw];
      (if now - s.lastSeen > TOUCH_INTERVAL then sessions[raw := s.(lastSeen := now, expires := now + SESSION_TTL)] else sessions,
       Granted(s.identity))
  }

  function Revoking(sessions: Sessions, raw: string, now: int): Sessions {
    if TokenShape(raw) && raw in sessions && sessions[raw].revoked.None?
    then sessions[raw := sessions[raw].(revoked := Some(now))] else sessions
  }

  function Step(t: Tables, call: Call, now: int): (Tables, Answer) {
    match call
    case Mint(raw, identity) => (t.(tokens := Minting(t.tokens, raw, identity, now)), Done)
    case Consume(raw) =>
      var (tokens, answer) := Consuming(t.tokens, raw, now);
      (t.(tokens := tokens), answer)
    case Create(raw, identity, ip) => (t.(sessions := Creating(t.sessions, raw, identity, ip, now)), Done)
    case Validate(raw) =>
      var (sessions, answer) := Validating(t.sessions, raw, now);
      (t.(sessions := sessions), answer)
    case Revoke(raw) => (t.(sessions := Revoking(t.sessions, raw, now)), Done)
  }

  // ---------------------------------------------------------------- histories of calls

  datatype Timed = Timed(call: Call, now: int)
  type History = seq<Timed>

  predicate Monotone(h: History) { forall i, k | 0 <= i < k < |h| :: h[i].now <= h[k].now }

  /** The tables after the first `n` calls, from empty ones. */
  function After(h: History, n: nat): Tables
    requires n <= |h|
  {
    if n == 0 then Tables(map[], map[]) else Step(After(h, n - 1), h[n - 1].call, h[n - 1].now).0
  }

  function AnswerAt(h: History, n: nat): Answer
    requires n < |h|
  {
    Step(After(h, n), h[n].call, h[n].now).1
  }

  datatype Grant = Grant(identity: string, at: int)

  /** The reference for tokens: the latest mint of `raw` that no call has spent. */
  function Unspent(h: History, n: nat, raw: string): Option<Grant>
    requires n <= |h|
  {
    if n == 0 then None
    else
      var before := Unspent(h, n - 1, raw);
      match h[n - 1].call
      case Mint(r, identity) => if r == raw then Some(Grant(identity, h[n - 1].now)) else before
      case Consume(r) => if r == raw && Spendable(before, raw, h[n - 1].now) then None else before
      case _ => before
  }

  predicate Spendable(g: Option<Grant>, raw: string, now: int) {
    g.Some? && TokenShape(raw) && now < g.value.at + 15 * 60 * 1000
  }

  datatype Login = Login(identity: string, seen: int, lastUse: int)

  /** The reference for sessions: the latest creation of `raw` that no call has revoked, with
      its last successful use and its last recorded one. */
  function SignedIn(h: History, n: nat, raw: string): Option<Login>
    requires n <= |h|
  {
    if n == 0 then None
    else
      var before := SignedIn(h, n - 1, raw);
      var now := h[n - 1].now;
      match h[n - 1].call
      case Create(r, identity, _) => if r == raw then Some(Login(identity, now, now)) else before
      case Validate(r) => if r == raw && Current(before, raw, now) then Some(Touched(before.value, now)) else before
      case Revoke(r) => if r == raw && TokenShape(raw) then None else before
      case _ => before
  }

  predicate Current(g: Option<Login>, raw: string, now: int) {
    g.Some? && TokenShape(raw) && now < g.value.seen + 30 * 24 * 60 * 60 * 1000
  }

  function Touched(g: Login, now: int): Login {
    Login(g.identity, if now - g.seen > 60 * 60 * 1000 then now else g.seen, now)
  }

  // ---------------------------------------------------------------- tables against histories

  /** A row that could still succeed is in the table; an unused row is the reference's. */
  predicate TokenMatch(tokens: Tokens, g: Option<Grant>, raw: string, now: int) {
    && (g.Some? && now < g.value.at + TOKEN_TTL ==> raw in tokens && tokens[raw].used.None?)
    && (raw in tokens && tokens[raw].used.None? ==>
          g.Some? && tokens[raw] == TokenRow(g.value.identity, g.value.at, g.value.at + TOKEN_TTL, None))
  }

  predicate SessionMatch(sessions: Sessions, g: Option<Login>, raw: string, now: int) {
    && (g.Some? && now < g.value.seen + SESSION_TTL ==> raw in sessions && sessions[raw].revoked.None?)
    && (raw in sessions && sessions[raw].revoked.None? ==>
          && g.Some? && sessions[raw].identity == g.value.identity
          && sessions[raw].lastSeen == g.value.seen && sessions[raw].expires == g.value.seen + SESSION_TTL)
  }

  lemma {:induction false} TokensMatch(h: History, n: nat, raw: string, now: int)
    requires Monotone(h) && n <= |h| && (n > 0 ==> h[n - 1].now <= now)
    ensures TokenMatch(After(h, n).tokens, Unspent(h, n, raw), raw, now)
  {
    if n > 0 {
      TokensMatch(h, n - 1, raw, h[n - 1].now);
    }
  }

  lemma {:induction false} SessionsMatch(h: History, n: nat, raw: string, now: int)
    requires Monotone(h) && n <= |h| && (n > 0 ==> h[n - 1].now <= now)
    ensures SessionMatch(After(h, n).sessions, SignedIn(h, n, raw), raw, now)
  {
    if n > 0 {
      SessionsMatch(h, n - 1, raw, h[n - 1].now);
    }
  }

  // ---------------------------------------------------------------- tokens

  /** A token is granted exactly when its latest mint is unspent and younger than 15 minutes,
      and then to the identity it was minted for: pruning changes no success. */
  lemma {:induction false} TokenExact(h: History, n: nat, raw: string, identity: string)
    requires Monotone(h) && n < |h| && h[n].call == Consume(raw)
    ensures var g := Unspent(h, n, raw);
            AnswerAt(h, n) == Granted(identity)
            <==> g.Some? && TokenShape(raw) && h[n].now < g.value.at + 15 * 60 * 1000 && g.value.identity == identity
  {
    TokensMatch(h, n, raw, h[n].now);
  }

  /** What the reference calls unspent was minted, to that identity and at that time. */
  lemma {:induction false} UnspentWasMinted(h: History, n: nat, raw: string) returns (i: nat)
    requires n <= |h| && Unspent(h, n, raw).Some?
    ensures i < n && h[i] == Timed(Mint(raw, Unspent(h, n, raw).value.identity), Unspent(h, n, raw).value.at)
  {
    if h[n - 1].call.Mint? && h[n - 1].call.raw == raw {
      i := n - 1;
    } else {
      i := UnspentWasMinted(h, n - 1, raw);
    }
  }

  /** A row as the call that made it left it. */
  predicate MintedRow(h: History, i: nat, raw: string, t: TokenRow) {
    && i < |h| && h[i].call == Mint(raw, t.identity) && t.created == h[i].now && t.expires == h[i].now + 15 * 60 * 1000
  }

  predicate CreatedRow(h: History, i: nat, raw: string, s: SessionRow) {
    && i < |h| && h[i].call == Create(raw, s.identity, s.ip) && s.created == h[i].now <= s.lastSeen
    && s.expires == s.lastSeen + 30 * 24 * 60 * 60 * 1000
  }

  /** Every stored row goes back to the call that made it. */
  lemma {:induction false} RowsGoBack(h: History, n: nat, raw: string)
    requires n <= |h| && Monotone(h)
    ensures raw in After(h, n).tokens ==> exists i: nat :: i < n && MintedRow(h, i, raw, After(h, n).tokens[raw])
    ensures raw in After(h, n).sessions ==> exists i: nat :: i < n && CreatedRow(h, i, raw, After(h, n).sessions[raw])
  {
    if n > 0 {
      RowsGoBack(h, n - 1, raw);
      var before, after := After(h, n - 1), After(h, n);
      if raw in after.tokens {
        if h[n - 1].call.Mint? && h[n - 1].call.raw == raw {
          assert MintedRow(h, n - 1, raw, after.tokens[raw]);
        } else {
          var i: nat :| i < n - 1 && MintedRow(h, i, raw, before.tokens[raw]);
          assert MintedRow(h, i, raw, after.tokens[raw]);
        }
      }
      if raw in after.sessions {
        if h[n - 1].call.Create? && h[n - 1].call.raw == raw {
          assert CreatedRow(h, n - 1, raw, after.sessions[raw]);
        } else {
          var i: nat :| i < n - 1 && CreatedRow(h, i, raw, before.sessions[raw]);
          assert CreatedRow(h, i, raw, after.sessions[raw]);
        }
      }
    }
  }

  /** Somebody minted a token a day or more after the ones minted at `at` had expired. */
  predicate Forgotten(h: History, n: nat, at: int)
    requires n <= |h|
  {
    exists i :: 0 <= i < n && h[i].call.Mint? && h[i].now >= at + 15 * 60 * 1000 + 24 * 60 * 60 * 1000
  }

  lemma {:induction false} InTable(h: History, n: nat, raw: string)
    requires Monotone(h) && n <= |h| && Unspent(h, n, raw).Some?
    ensures raw in After(h, n).tokens <==> !Forgotten(h, n, Unspent(h, n, raw).value.at)
    ensures raw in After(h, n).tokens ==> After(h, n).tokens[raw].used.None?
  {
    var call, now := h[n - 1].call, h[n - 1].now;
    if call.Mint? && call.raw == raw {
      assert !Forgotten(h, n, now);
    } else {
      InTable(h, n - 1, raw);
      TokensMatch(h, n - 1, raw, now);
      var at := Unspent(h, n, raw).value.at;
      assert Forgotten(h, n, at) <==> Forgotten(h, n - 1, at) || (call.Mint? && now >= at + TOKEN_TTL + DAY);
    }
  }

  /** An unspent token of 15 minutes or more is called expired, until a mint a day later has
      pruned it; from then on it is unknown. */
  lemma {:induction false} ExpiredExact(h: History, n: nat, raw: string)
    requires Monotone(h) && n < |h| && h[n].call == Consume(raw) && TokenShape(raw)
    requires Unspent(h, n, raw).Some? && h[n].now >= Unspent(h, n, raw).value.at + 15 * 60 * 1000
    ensures AnswerAt(h, n) == if Forgotten(h, n, Unspent(h, n, raw).value.at) then Unknown else Expired
  {
    InTable(h, n, raw);
    TokensMatch(h, n, raw, h[n].now);
  }

  predicate MintedBetween(h: History, raw: string, from: nat, to: nat)
    requires from <= to <= |h|
  {
    exists i :: from <= i < to && h[i].call.Mint? && h[i].call.raw == raw
  }

  /** Once granted, a token is never granted again, unless its random value is drawn again. */
  lemma {:induction false} SingleUse(h: History, i: nat, j: nat, raw: string)
    requires Monotone(h) && i < j < |h| && h[i].call == Consume(raw) && h[j].call == Consume(raw)
    requires AnswerAt(h, i).Granted? && !MintedBetween(h, raw, i, j)
    ensures !AnswerAt(h, j).Granted?
  {
    TokensMatch(h, i, raw, h[i].now);
    StaysSpent(h, i + 1, j, raw);
    TokensMatch(h, j, raw, h[j].now);
  }

  lemma {:induction false} StaysSpent(h: History, i: nat, j: nat, raw: string)
    requires i <= j <= |h| && Unspent(h, i, raw).None? && !MintedBetween(h, raw, i, j)
    ensures Unspent(h, j, raw).None?
  {
    if i < j {
      assert !MintedBetween(h, raw, i, j - 1);
      StaysSpent(h, i, j - 1, raw);
    }
  }

  predicate AnyMintBetween(h: History, from: nat, to: nat)
    requires from <= to <= |h|
  {
    exists i :: from <= i < to && h[i].call.Mint?
  }

  /** The stated reason for a second attempt is "used" exactly until somebody mints a token;
      from then on it is "unknown", because minting prunes used rows. */
  lemma {:induction false} SecondAttempt(h: History, i: nat, j: nat, raw: string)
    requires Monotone(h) && i < j < |h| && h[i].call == Consume(raw) && h[j].call == Consume(raw)
    requires AnswerAt(h, i).Granted? && !MintedBetween(h, raw, i, j)
    ensures AnswerAt(h, j) == if AnyMintBetween(h, i, j) then Unknown else Used
  {
    UsedUntilMint(h, i + 1, j, raw);
    assert h[i].call.Consume?;
    assert AnyMintBetween(h, i + 1, j) == AnyMintBetween(h, i, j);
  }

  /** For instance: a token is minted and used, another is minted, and the first is then not
      "used" but "unknown". */
  lemma {:induction false} UnknownAfterMint(a: string, b: string)
    requires TokenShape(a) && TokenShape(b) && a != b
    ensures var h := [Timed(Mint(a, "ann"), 0), Timed(Consume(a), 1), Timed(Mint(b, "bob"), 2), Timed(Consume(a), 3)];
            AnswerAt(h, 1) == Granted("ann") && AnswerAt(h, 3) == Unknown
  {
    var h := [Timed(Mint(a, "ann"), 0), Timed(Consume(a), 1), Timed(Mint(b, "bob"), 2), Timed(Consume(a), 3)];
    assert After(h, 1) == Step(After(h, 0), h[0].call, 0).0;
    assert After(h, 2) == Step(After(h, 1), h[1].call, 1).0;
    assert After(h, 3) == Step(After(h, 2), h[2].call, 2).0;
  }

  lemma {:induction false} UsedUntilMint(h: History, i: nat, j: nat, raw: string)
    requires i <= j <= |h| && !MintedBetween(h, raw, i, j)
    requires raw in After(h, i).tokens && After(h, i).tokens[raw].used.Some?
    ensures if AnyMintBetween(h, i, j) then raw !in After(h, j).tokens
            else raw in After(h, j).tokens && After(h, j).tokens[raw].used.Some?
  {
    if i < j {
      assert !MintedBetween(h, raw, i, j - 1);
      UsedUntilMint(h, i, j - 1, raw);
      assert AnyMintBetween(h, i, j) <==> AnyMintBetween(h, i, j - 1) || h[j - 1].call.Mint?;
    }
  }

  // ---------------------------------------------------------------- sessions

  /** A cookie is accepted exactly when the reference has the session, unrevoked, and its last
      recorded use is younger than 30 days. */
  lemma {:induction false} SessionExact(h: History, n: nat, raw: string, identity: string)
    requires Monotone(h) && n < |h| && h[n].call == Validate(raw)
    ensures AnswerAt(h, n) == Granted(identity)
        <==> Current(SignedIn(h, n, raw), raw, h[n].now) && SignedIn(h, n, raw).value.identity == identity
  {
    SessionsMatch(h, n, raw, h[n].now);
  }

  /** The recorded use trails the last use by at most one hour. */
  lemma {:induction false} TrailsByAnHour(h: History, n: nat, raw: string)
    requires Monotone(h) && n <= |h| && SignedIn(h, n, raw).Some?
    ensures var g := SignedIn(h, n, raw).value;
            g.lastUse - TOUCH_INTERVAL <= g.seen <= g.lastUse && n > 0 && g.lastUse <= h[n - 1].now
  {
    var call := h[n - 1].call;
    if !(call.Create? && call.raw == raw) {
      TrailsByAnHour(h, n - 1, raw);
    }
  }

  /** Against exact sliding expiry, 30 days after the last use: the stored expiry of a session
      is at most an hour early and never late. */
  lemma {:induction false} StoredExpiry(h: History, n: nat, raw: string)
    requires Monotone(h) && n <= |h|
    requires raw in After(h, n).sessions && After(h, n).sessions[raw].revoked.None?
    ensures SignedIn(h, n, raw).Some?
    ensures var exact := SignedIn(h, n, raw).value.lastUse + SESSION_TTL;
            exact - TOUCH_INTERVAL <= After(h, n).sessions[raw].expires <= exact
  {
    if n > 0 {
      SessionsMatch(h, n, raw, h[n - 1].now);
      TrailsByAnHour(h, n, raw);
    }
  }

  /** So every use in the first 30 days less an hour after the last one succeeds, and none
      after 30 days does. */
  lemma {:induction false} SlidingWindow(h: History, n: nat, raw: string)
    requires Monotone(h) && n < |h| && h[n].call == Validate(raw) && SignedIn(h, n, raw).Some? && TokenShape(raw)
    ensures var last := SignedIn(h, n, raw).value.lastUse;
            && (h[n].now < last + (30 * 24 - 1) * 60 * 60 * 1000 ==> AnswerAt(h, n).Granted?)
            && (h[n].now >= last + 30 * 24 * 60 * 60 * 1000 ==> AnswerAt(h, n) == Refused)
  {
    SessionsMatch(h, n, raw, h[n].now);
    TrailsByAnHour(h, n, raw);
  }

  predicate CreatedBetween(h: History, raw: string, from: nat, to: nat)
    requires from <= to <= |h|
  {
    exists i :: from <= i < to && h[i].call.Create? && h[i].call.raw == raw
  }

  predicate Gone(g: Option<Login>, now: int) { g.None? || g.value.seen + SESSION_TTL <= now }

  lemma {:induction false} StaysGone(h: History, i: nat, j: nat, raw: string, now: int)
    requires Monotone(h) && i <= j <= |h| && Gone(SignedIn(h, i, raw), now) && !CreatedBetween(h, raw, i, j)
    requires forall k | i <= k < j :: now <= h[k].now
    ensures Gone(SignedIn(h, j, raw), now)
  {
    if i < j {
      assert !CreatedBetween(h, raw, i, j - 1);
      StaysGone(h, i, j - 1, raw, now);
    }
  }

  /** A refused cookie, and a revoked one, is refused ever after, whatever happens to the
      tables, unless its random value is drawn again. */
  lemma {:induction false} NeverRevives(h: History, i: nat, j: nat, raw: string)
    requires Monotone(h) && i < j < |h| && h[j].call == Validate(raw) && !CreatedBetween(h, raw, i, j)
    requires h[i].call == Revoke(raw) || (h[i].call == Validate(raw) && AnswerAt(h, i) == Refused)
    ensures AnswerAt(h, j) == Refused
  {
    SessionsMatch(h, i, raw, h[i].now);
    SessionsMatch(h, j, raw, h[j].now);
    if TokenShape(raw) {
      StaysGone(h, i + 1, j, raw, h[i].now);
    }
  }

  /** Signing one device out leaves every other session as it is. */
  lemma {:induction false} OthersKeepTheirSession(h: History, n: nat, raw: string, other: string)
    requires n < |h| && h[n].call == Revoke(other) && other != raw
    ensures SignedIn(h, n + 1, raw) == SignedIn(h, n, raw)
    ensures raw in After(h, n + 1).sessions <==> raw in After(h, n).sessions
    ensures raw in After(h, n).sessions ==> After(h, n + 1).sessions[raw] == After(h, n).sessions[raw]
  {
  }

  // ---------------------------------------------------------------- the class

  lemma {:induction false} MonotonePush(h: History, last: Timed)
    requires Monotone(h) && (h != [] ==> h[|h| - 1].now <= last.now)
    ensures Monotone(h + [last])
  {
  }

  lemma {:induction false} HistoryGrows(h: History, call: Call, now: int)
    requires Monotone(h) && (h != [] ==> h[|h| - 1].now <= now)
    ensures Monotone(h + [Timed(call, now)])
    ensures After(h + [Timed(call, now)], |h| + 1) == Step(After(h, |h|), call, now).0
    ensures AnswerAt(h + [Timed(call, now)], |h|) == Step(After(h, |h|), call, now).1
  {
    MonotonePush(h, Timed(call, now));
    LastStep(h, h + [Timed(call, now)]);
  }

  lemma {:induction false} LastStep(h: History, longer: History)
    requires |longer| == |h| + 1 && longer[..|h|] == h
    ensures var last := longer[|h|];
            && After(longer, |h| + 1) == Step(After(h, |h|), last.call, last.now).0
            && AnswerAt(longer, |h|) == Step(After(h, |h|), last.call, last.now).1
  {
    SamePrefix(h, longer, |h|);
  }

  lemma {:induction false} SamePrefix(h: History, longer: History, n: nat)
    requires n <= |h| <= |longer| && longer[..|h|] == h
    ensures After(longer, n) == After(h, n)
  {
    if n > 0 {
      SamePrefix(h, longer, n - 1);
      assert longer[n - 1] == longer[..|h|][n - 1];
    }
  }

  /** The pruning loop of mintSigninToken(). */
  method PruneTokens(tokens: Tokens, now: int) returns (live: Tokens)
    ensures live == LiveTokens(tokens, now)
  {
    live := tokens;
    var todo := tokens.Keys;
    while todo != {}
      invariant todo <= tokens.Keys
      invariant forall h :: h in live ==> h in tokens && live[h] == tokens[h]
      invariant forall h :: h in tokens ==> (h in live <==> h in todo || !DeadToken(tokens[h], now))
      decreases |todo|
    {
      var h :| h in todo;
      if DeadToken(tokens[h], now) {
        live := live - {h};
      }
      todo := todo - {h};
    }
  }

  /** The pruning loop of createSession(). */
  method PruneSessions(sessions: Sessions, now: int) returns (live: Sessions)
    ensures live == LiveSessions(sessions, now)
  {
    live := sessions;
    var todo := sessions.Keys;
    while todo != {}
      invariant todo <= sessions.Keys
      invariant forall h :: h in live ==> h in sessions && live[h] == sessions[h]
      invariant forall h :: h in sessions ==> (h in live <==> h in todo || !DeadSession(sessions[h], now))
      decreases |todo|
    {
      var h :| h in todo;
      if DeadSession(sessions[h], now) {
        live := live - {h};
      }
      todo := todo - {h};
    }
  }

  /** Every method extends the history by its call, and leaves the tables and gives the answer
      that history determines. */
  class CustomerSessionStore {
    var tokens: Tokens
    var sessions: Sessions
    ghost var history: History

    ghost predicate Valid()
      reads this
    {
      Monotone(history) && Tables(tokens, sessions) == After(history, |history|)
    }

    ghost predicate Ready(now: int)
      reads this
    {
      Valid() && (history != [] ==> history[|history| - 1].now <= now)
    }

    constructor ()
      ensures Valid() && history == []
    {
      tokens, sessions, history := map[], map[], [];
    }

    method MintSigninToken(raw: string, identity: string, now: int)
      requires Ready(now)
      modifies this
      ensures Valid() && history == old(history) + [Timed(Mint(raw, identity), now)]
    {
      HistoryGrows(history, Mint(raw, identity), now);
      var live := PruneTokens(tokens, now);
      tokens := live[raw := TokenRow(identity, now, now + TOKEN_TTL, None)];
      history := history + [Timed(Mint(raw, identity), now)];
    }

    method ConsumeSigninToken(raw: string, now: int) returns (answer: Answer)
      requires Ready(now)
      modifies this
      ensures Valid() && history == old(history) + [Timed(Consume(raw), now)]
      ensures answer == AnswerAt(history, |old(history)|)
      ensures sessions == old(sessions)
    {
      HistoryGrows(history, Consume(raw), now);
      history := history + [Timed(Consume(raw), now)];
      if !TokenShape(raw) || raw !in tokens {
        return Unknown;
      }
      var t := tokens[raw];
      if t.used.Some? {
        return Used;
      }
      if t.expires <= now {
        return Expired;
      }
      tokens := tokens[raw := t.(used := Some(now))];
      return Granted(t.identity);
    }

    method CreateSession(raw: string, identity: string, ip: string, now: int)
      requires Ready(now)
      modifies this
      ensures Valid() && history == old(history) + [Timed(Create(raw, identity, ip), now)]
    {
      HistoryGrows(history, Create(raw, identity, ip), now);
      var live := PruneSessions(sessions, now);
      sessions := live[raw := SessionRow(identity, now, now, now + SESSION_TTL, None, ip)];
      history := history + [Timed(Create(raw, identity, ip), now)];
    }

    method ValidateSession(raw: string, now: int) returns (answer: Answer)
      requires Ready(now)
      modifies this
      ensures Valid() && history == old(history) + [Timed(Validate(raw), now)]
      ensures answer == AnswerAt(history, |old(history)|)
      ensures tokens == old(tokens)
    {
      HistoryGrows(history, Validate(raw), now);
      history := history + [Timed(Validate(raw), now)];
      if !TokenShape(raw) || raw !in sessions {
        return Refused;
      }
      var s := sessions[raw];
      if s.revoked.Some? || s.expires <= now {
        return Refused;
      }
      if now - s.lastSeen > TOUCH_INTERVAL {
        sessions := sessions[raw := s.(lastSeen := now, expires := now + SESSION_TTL)];
      }
      return Granted(s.identity);
    }

    method RevokeSession(raw: string, now: int)
      requires Ready(now)
      modifies this
      ensures Valid() && history == old(history) + [Timed(Revoke(raw), now)]
      ensures tokens == old(tokens)
    {
      HistoryGrows(history, Revoke(raw), now);
      history := history + [Timed(Revoke(raw), now)];
      if TokenShape(raw) && raw in sessions && sessions[raw].revoked.None? {
        sessions := sessions[raw := sessions[raw].(revoked := Some(now))];
      }
    }
  }
}
