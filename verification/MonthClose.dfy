/** Exchange account claims, the CSV of a completed month, and its one-time finalisation. */
module MonthClose {
  import opened Basics
  import opened Ledger
  import opened PartnerFile
  import Csv
  import Dollars

  datatype Claim = Claim(exchange: Text, uid: Text, verified: bool, revision: nat)
  datatype Profile = Profile(id: string, claims: seq<Claim>, rebatePercent: nat)
  datatype RebateLine = RebateLine(owner: string, commission: nat, rebate: nat, qualified: bool, rate: nat)
  datatype Month = Month(period: nat, rows: seq<RebateLine>)

  const MINIMUM_REBATE := 1500
  const DEFAULT_SHARE := 35

  // ---------------------------------------------------------------- claims

  predicate Holds(m: Profile, exchange: Text, uid: Text) {
    exists i :: 0 <= i < |m.claims| && m.claims[i].exchange == exchange && m.claims[i].uid == uid && m.claims[i].verified
  }

  /** At most one claim per member and exchange, and no verified account with two holders. */
  ghost predicate ClaimsOk(members: seq<Profile>) {
    && OwnersApart(members)
    && (forall i | 0 <= i < |members| :: OneClaimEach(members[i].claims))
    && (forall i, k, exchange: Text, uid: Text | 0 <= i < k < |members| ::
          !(Holds(members[i], exchange, uid) && Holds(members[k], exchange, uid)))
  }

  predicate OwnersApart(members: seq<Profile>) {
    forall i, j | 0 <= i < j < |members| :: members[i].id != members[j].id
  }

  predicate OneClaimEach(claims: seq<Claim>) {
    forall i, k | 0 <= i < k < |claims| :: claims[i].exchange != claims[k].exchange
  }

  function ClaimOn(claims: seq<Claim>, exchange: Text): (at: Option<nat>)
    ensures at.Some? ==> at.value < |claims| && claims[at.value].exchange == exchange
    ensures at.None? <==> forall i | 0 <= i < |claims| :: claims[i].exchange != exchange
  {
    if claims == [] then None
    else if claims[0].exchange == exchange then Some(0)
    else
      var rest := ClaimOn(claims[1..], exchange);
      assert forall i | 1 <= i < |claims| :: claims[i] == claims[1..][i - 1];
      if rest.None? then None else Some(rest.value + 1)
  }

  /** addUid(): a first claim, or a reviewed change of an existing one; None is a refusal. */
  function AddUid(m: Profile, exchange: Text, uid: Text, expected: Option<(Text, nat)>, next: nat): Option<Profile> {
    var at := ClaimOn(m.claims, exchange);
    if expected.Some? then
      if at.None? || m.claims[at.value].uid != expected.value.0 then None
      else if m.claims[at.value].uid == uid then Some(m)
      else if m.claims[at.value].revision != expected.value.1 then None
      else Some(m.(claims := m.claims[at.value := Claim(exchange, uid, false, next)]))
    else if at.Some? then None
    else Some(m.(claims := m.claims + [Claim(exchange, uid, false, next)]))
  }

  /** The verification part of configure(): refused when the claim changed meanwhile or
      another member already holds the account. */
  function SetVerified(members: seq<Profile>, k: nat, exchange: Text, uid: Text, verified: bool,
                       revision: nat, next: nat): Option<seq<Profile>>
    requires k < |members|
  {
    var m := members[k];
    var at := ClaimOn(m.claims, exchange);
    if at.None? || m.claims[at.value].uid != uid then None
    else if m.claims[at.value].verified == verified then Some(members)
    else if m.claims[at.value].revision != revision then None
    else if verified && (exists i :: 0 <= i < |members| && members[i].id != m.id && Holds(members[i], exchange, uid)) then None
    else Some(members[k := m.(claims := m.claims[at.value := m.claims[at.value].(verified := verified, revision := next)])])
  }

  predicate ClaimFor(c: Claim, exchange: Text, uid: Text) { c.exchange == exchange && c.uid == uid }

  lemma {:induction false} OnlyClaim(claims: seq<Claim>, c: Claim)
    requires OneClaimEach(claims) && c in claims
    ensures ClaimOn(claims, c.exchange).Some? && claims[ClaimOn(claims, c.exchange).value] == c
  {
    var i :| 0 <= i < |claims| && claims[i] == c;
    assert forall k | 0 <= k < |claims| && k != i :: claims[k].exchange != c.exchange;
  }

  lemma {:induction false} NoClaim(claims: seq<Claim>, exchange: Text)
    ensures ClaimOn(claims, exchange).None? <==> forall c | c in claims :: c.exchange != exchange
  {
    if ClaimOn(claims, exchange).Some? {
      assert claims[ClaimOn(claims, exchange).value] in claims;
    }
  }

  /** A first claim is taken when the exchange has none; a change when the member saw the claim
      as it is now, or changes nothing. A new or changed claim is unverified, with a revision
      of its own; every other claim stays. */
  lemma {:induction false} AddUidExact(m: Profile, exchange: Text, uid: Text, expected: Option<(Text, nat)>, next: nat)
    requires OneClaimEach(m.claims)
    ensures var r := AddUid(m, exchange, uid, expected, next);
            && (r.Some? <==>
                  if expected.None? then forall c | c in m.claims :: c.exchange != exchange
                  else exists c :: c in m.claims && ClaimFor(c, exchange, expected.value.0)
                                   && (c.uid == uid || c.revision == expected.value.1))
            && (r.Some? ==>
                  && r.value == m.(claims := r.value.claims)
                  && (forall c: Claim | c.exchange != exchange :: c in r.value.claims <==> c in m.claims)
                  && (forall c: Claim | c.exchange == exchange ::
                        c in r.value.claims <==>
                          if expected.Some? && expected.value.0 == uid then c in m.claims else c == Claim(exchange, uid, false, next)))
  {
    NoClaim(m.claims, exchange);
    forall c | c in m.claims && c.exchange == exchange
      ensures ClaimOn(m.claims, exchange).Some? && m.claims[ClaimOn(m.claims, exchange).value] == c
    {
      OnlyClaim(m.claims, c);
    }
    var at := ClaimOn(m.claims, exchange);
    if at.Some? {
      ReplacedClaims(m.claims, at.value, Claim(exchange, uid, false, next));
      assert m.claims[at.value] in m.claims;
    }
  }

  /** The claims when one is replaced by another on its exchange. */
  lemma {:induction false} ReplacedClaims(claims: seq<Claim>, at: nat, with: Claim)
    requires OneClaimEach(claims) && at < |claims| && with.exchange == claims[at].exchange
    ensures forall c :: c in claims[at := with] <==> c == with || (c in claims && c.exchange != with.exchange)
  {
    var after := claims[at := with];
    forall c
      ensures c in after <==> c == with || (c in claims && c.exchange != with.exchange)
    {
      assert after[at] == with;
      if c in claims && c.exchange != with.exchange {
        var i :| 0 <= i < |claims| && claims[i] == c;
        assert after[i] == c;
      }
      if c in after && c != with {
        var i :| 0 <= i < |after| && after[i] == c;
        assert claims[i] == c && i != at;
      }
    }
  }

  /** A verification is set when the claim is as the operator saw it, or is so already, and
      never while another member's claim to the account is verified; nothing else changes. */
  lemma {:induction false} SetVerifiedExact(members: seq<Profile>, k: nat, exchange: Text, uid: Text,
                                            verified: bool, revision: nat, next: nat)
    requires ClaimsOk(members) && k < |members|
    ensures var r := SetVerified(members, k, exchange, uid, verified, revision, next);
            && (r.Some? <==> exists c :: c in members[k].claims && ClaimFor(c, exchange, uid)
                               && (c.verified == verified
                                   || (c.revision == revision
                                       && (verified ==> forall i | 0 <= i < |members| && i != k :: !Holds(members[i], exchange, uid)))))
            && (r.Some? ==>
                  && |r.value| == |members| && (forall i | 0 <= i < |members| && i != k :: r.value[i] == members[i])
                  && r.value[k] == members[k].(claims := r.value[k].claims)
                  && (forall c: Claim | c.exchange != exchange :: c in r.value[k].claims <==> c in members[k].claims)
                  && (forall c | c in r.value[k].claims && c.exchange == exchange :: c.uid == uid && c.verified == verified))
  {
    var m := members[k];
    assert OneClaimEach(m.claims);
    NoClaim(m.claims, exchange);
    forall c | c in m.claims && c.exchange == exchange
      ensures ClaimOn(m.claims, exchange).Some? && m.claims[ClaimOn(m.claims, exchange).value] == c
    {
      OnlyClaim(m.claims, c);
    }
    var at := ClaimOn(m.claims, exchange);
    if at.Some? {
      assert m.claims[at.value] in m.claims;
      ReplacedClaims(m.claims, at.value, m.claims[at.value].(verified := verified, revision := next));
    }
    assert forall i | 0 <= i < |members| && i != k :: members[i].id != m.id;
  }

  /** Replacing one member whose verified accounts nobody else holds. */
  lemma {:induction false} ReplaceMember(members: seq<Profile>, k: nat, m: Profile)
    requires ClaimsOk(members) && k < |members| && m.id == members[k].id && OneClaimEach(m.claims)
    requires forall exchange: Text, uid: Text | Holds(m, exchange, uid) && !Holds(members[k], exchange, uid) ::
               forall i | 0 <= i < |members| && i != k :: !Holds(members[i], exchange, uid)
    ensures ClaimsOk(members[k := m])
  {
    var after := members[k := m];
    forall i, j, exchange: Text, uid: Text | 0 <= i < j < |after|
      ensures !(Holds(after[i], exchange, uid) && Holds(after[j], exchange, uid))
    {
      assert !(Holds(members[i], exchange, uid) && Holds(members[j], exchange, uid));
    }
  }

  lemma {:induction false} AddUidKeepsClaims(members: seq<Profile>, k: nat, exchange: Text, uid: Text,
                                             expected: Option<(Text, nat)>, next: nat)
    requires ClaimsOk(members) && k < |members|
    ensures var r := AddUid(members[k], exchange, uid, expected, next);
            r.Some? ==> ClaimsOk(members[k := r.value])
  {
    var r := AddUid(members[k], exchange, uid, expected, next);
    if r.Some? {
      assert OneClaimEach(members[k].claims);
      forall e: Text, u: Text | Holds(r.value, e, u)
        ensures Holds(members[k], e, u)
      {
        var i :| 0 <= i < |r.value.claims| && r.value.claims[i].exchange == e && r.value.claims[i].uid == u && r.value.claims[i].verified;
        assert r.value.claims[i] == members[k].claims[i];
      }
      ReplaceMember(members, k, r.value);
    }
  }

  lemma {:induction false} SetVerifiedKeepsClaims(members: seq<Profile>, k: nat, exchange: Text, uid: Text,
                                                  verified: bool, revision: nat, next: nat)
    requires ClaimsOk(members) && k < |members|
    ensures var r := SetVerified(members, k, exchange, uid, verified, revision, next);
            r.Some? ==> ClaimsOk(r.value)
  {
    var r := SetVerified(members, k, exchange, uid, verified, revision, next);
    if r.Some? && r.value != members {
      var m := r.value[k];
      assert OneClaimEach(members[k].claims);
      forall e: Text, u: Text | Holds(m, e, u) && !Holds(members[k], e, u)
        ensures forall i | 0 <= i < |members| && i != k :: !Holds(members[i], e, u)
      {
        var i :| 0 <= i < |m.claims| && m.claims[i].exchange == e && m.claims[i].uid == u && m.claims[i].verified;
        assert m.claims[i] != members[k].claims[i];
        assert e == exchange && u == uid;
        forall j | 0 <= j < |members| && j != k
          ensures members[j].id != members[k].id
        {
        }
      }
      ReplaceMember(members, k, m);
    }
  }

  // ---------------------------------------------------------------- attribution

  /** The first member holding a line's account. */
  function Holder(members: seq<Profile>, line: Line): (at: Option<nat>)
    ensures at.Some? ==> at.value < |members| && Holds(members[at.value], line.exchange, line.uid)
    ensures at.None? <==> forall i | 0 <= i < |members| :: !Holds(members[i], line.exchange, line.uid)
  {
    if members == [] then None
    else if Holds(members[0], line.exchange, line.uid) then Some(0)
    else
      var rest := Holder(members[1..], line);
      assert forall i | 1 <= i < |members| :: members[i] == members[1..][i - 1];
      if rest.None? then None else Some(rest.value + 1)
  }

  /** With the claim invariant "the first holder" is "the only holder". */
  lemma {:induction false} HolderIsUnique(members: seq<Profile>, line: Line, k: nat)
    requires ClaimsOk(members) && k < |members| && Holds(members[k], line.exchange, line.uid)
    ensures Holder(members, line) == Some(k)
  {
    var at := Holder(members, line);
    assert Holds(members[at.value], line.exchange, line.uid);
  }

  const COLON := 58

  function Key(line: Line): Text { line.exchange + [COLON] + line.uid }

  /** A line's account is unheld, or listed on an earlier line too. */
  predicate BadLine(members: seq<Profile>, lines: seq<Line>, n: nat)
    requires n < |lines|
  {
    || Holder(members, lines[n]).None?
    || exists i :: 0 <= i < n && Key(lines[i]) == Key(lines[n])
  }

  /** The cents of the lines whose verified account is member k's. */
  function CentsFor(members: seq<Profile>, lines: seq<Line>, k: nat): nat {
    if lines == [] then 0 else
      var n := |lines| - 1;
      CentsFor(members, lines[..n], k) + (if Holder(members, lines[n]) == Some(k) then lines[n].cents else 0)
  }

  predicate HasLine(members: seq<Profile>, lines: seq<Line>, k: nat) {
    exists n :: 0 <= n < |lines| && Holder(members, lines[n]) == Some(k)
  }

  /** Some line is bad, or some member's total passes the limit. */
  ghost predicate Refusable(members: seq<Profile>, lines: seq<Line>) {
    || (exists n: nat :: n < |lines| && BadLine(members, lines, n))
    || (exists k: nat :: CentsFor(members, lines, k) > Dollars.MAX_CENTS)
  }

  lemma {:induction false} CentsForFront(members: seq<Profile>, lines: seq<Line>, n: nat, k: nat)
    requires n <= |lines|
    ensures CentsFor(members, lines[..n], k) <= CentsFor(members, lines, k)
  {
    if n == |lines| {
      assert lines[..n] == lines;
    } else {
      var front := lines[..|lines| - 1];
      CentsForFront(members, front, n, k);
      assert front[..n] == lines[..n];
    }
  }

  /** What spoils the first lines of a file spoils the file. */
  lemma {:induction false} RefusableFront(members: seq<Profile>, lines: seq<Line>, n: nat)
    requires n <= |lines| && Refusable(members, lines[..n])
    ensures Refusable(members, lines)
  {
    var front := lines[..n];
    if i: nat :| i < n && BadLine(members, front, i) {
      assert front[i] == lines[i];
      if j :| 0 <= j < i && Key(front[j]) == Key(front[i]) {
        assert Key(lines[j]) == Key(lines[i]);
      }
      assert BadLine(members, lines, i);
    } else {
      var k: nat :| CentsFor(members, front, k) > Dollars.MAX_CENTS;
      CentsForFront(members, lines, n, k);
    }
  }

  lemma {:induction false} NoCentsOutside(members: seq<Profile>, lines: seq<Line>, k: nat)
    requires !HasLine(members, lines, k)
    ensures CentsFor(members, lines, k) == 0
  {
    if lines != [] {
      var n := |lines| - 1;
      assert Holder(members, lines[n]) != Some(k);
      assert forall i | 0 <= i < n :: lines[..n][i] == lines[i];
      NoCentsOutside(members, lines[..n], k);
    }
  }

  // ---------------------------------------------------------------- the loop over the lines

  /** A running total is the attributed cents of the lines so far. */
  predicate TallyOf(members: seq<Profile>, lines: seq<Line>, totals: map<nat, nat>, k: nat) {
    && (k in totals <==> HasLine(members, lines, k))
    && (k in totals ==> totals[k] == CentsFor(members, lines, k) <= Dollars.MAX_CENTS)
  }

  ghost predicate Tallied(members: seq<Profile>, lines: seq<Line>, totals: map<nat, nat>) {
    forall k: nat :: TallyOf(members, lines, totals, k)
  }

  predicate Seen(lines: seq<Line>, seen: set<Text>) {
    && (forall i | 0 <= i < |lines| :: Key(lines[i]) in seen)
    && (forall x | x in seen :: exists i :: 0 <= i < |lines| && Key(lines[i]) == x)
  }

  predicate NoneBad(members: seq<Profile>, lines: seq<Line>) {
    forall n: nat | n < |lines| :: !BadLine(members, lines, n)
  }

  ghost predicate SoFar(members: seq<Profile>, lines: seq<Line>, seen: set<Text>, totals: map<nat, nat>) {
    Seen(lines, seen) && NoneBad(members, lines) && Tallied(members, lines, totals)
  }

  lemma {:induction false} SoFarFits(members: seq<Profile>, lines: seq<Line>, seen: set<Text>, totals: map<nat, nat>)
    requires SoFar(members, lines, seen, totals)
    ensures !Refusable(members, lines)
  {
    forall k: nat
      ensures CentsFor(members, lines, k) <= Dollars.MAX_CENTS
    {
      assert TallyOf(members, lines, totals, k);
      if k !in totals {
        NoCentsOutside(members, lines, k);
      }
    }
  }

  lemma {:induction false} HasLinePush(members: seq<Profile>, lines: seq<Line>, line: Line, k: nat)
    ensures HasLine(members, lines + [line], k) <==> HasLine(members, lines, k) || Holder(members, line) == Some(k)
  {
    var next := lines + [line];
    assert next[|lines|] == line && forall i | 0 <= i < |lines| :: next[i] == lines[i];
    if i :| 0 <= i < |lines| && Holder(members, lines[i]) == Some(k) {
      assert Holder(members, next[i]) == Some(k);
    }
  }

  lemma {:induction false} CentsPush(members: seq<Profile>, lines: seq<Line>, line: Line, k: nat)
    ensures CentsFor(members, lines + [line], k)
         == CentsFor(members, lines, k) + if Holder(members, line) == Some(k) then line.cents else 0
  {
    assert (lines + [line])[..|lines|] == lines;
  }

  function NewTotal(totals: map<nat, nat>, k: nat, cents: nat): nat { (if k in totals then totals[k] else 0) + cents }

  lemma {:induction false} TallyPush(members: seq<Profile>, lines: seq<Line>, line: Line, totals: map<nat, nat>, k: nat)
    requires Tallied(members, lines, totals) && Holder(members, line) == Some(k)
    ensures var total := NewTotal(totals, k, line.cents);
            && total == CentsFor(members, lines + [line], k)
            && (total <= Dollars.MAX_CENTS ==> Tallied(members, lines + [line], totals[k := total]))
  {
    var total := NewTotal(totals, k, line.cents);
    assert TallyOf(members, lines, totals, k);
    CentsPush(members, lines, line, k);
    if k !in totals {
      NoCentsOutside(members, lines, k);
    }
    if total <= Dollars.MAX_CENTS {
      var next, after := lines + [line], totals[k := total];
      forall j: nat
        ensures TallyOf(members, next, after, j)
      {
        assert TallyOf(members, lines, totals, j);
        HasLinePush(members, lines, line, j);
        CentsPush(members, lines, line, j);
      }
    }
  }

  lemma {:induction false} SeenPush(lines: seq<Line>, line: Line, seen: set<Text>)
    requires Seen(lines, seen)
    ensures Seen(lines + [line], seen + {Key(line)})
  {
    var next := lines + [line];
    forall x | x in seen + {Key(line)}
      ensures exists i :: 0 <= i < |next| && Key(next[i]) == x
    {
      if x in seen {
        var i :| 0 <= i < |lines| && Key(lines[i]) == x;
        assert Key(next[i]) == x;
      } else {
        assert Key(next[|lines|]) == x;
      }
    }
  }

  lemma {:induction false} NoneBadPush(members: seq<Profile>, lines: seq<Line>, line: Line, seen: set<Text>)
    requires NoneBad(members, lines) && Seen(lines, seen)
    ensures NoneBad(members, lines + [line]) <==> Key(line) !in seen && Holder(members, line).Some?
  {
    var next := lines + [line];
    forall n: nat | n < |lines|
      ensures !BadLine(members, next, n)
    {
      assert !BadLine(members, lines, n);
    }
    assert BadLine(members, next, |lines|) <==> Key(line) in seen || Holder(members, line).None? by {
      assert forall i | 0 <= i < |lines| :: next[i] == lines[i];
      if Key(line) in seen {
        var i :| 0 <= i < |lines| && Key(lines[i]) == Key(line);
        assert Key(next[i]) == Key(next[|lines|]);
      }
    }
  }

  /** A line is refused for a reason, or tallied. */
  lemma {:induction false} OneLine(members: seq<Profile>, lines: seq<Line>, line: Line, seen: set<Text>,
                                   totals: map<nat, nat>)
    requires SoFar(members, lines, seen, totals)
    ensures Refused(members, line, seen, totals) ==> Refusable(members, lines + [line])
    ensures !Refused(members, line, seen, totals) ==>
              var k := Holder(members, line).value;
              SoFar(members, lines + [line], seen + {Key(line)}, totals[k := NewTotal(totals, k, line.cents)])
  {
    NoneBadPush(members, lines, line, seen);
    SeenPush(lines, line, seen);
    if Holder(members, line).Some? {
      TallyPush(members, lines, line, totals, Holder(members, line).value);
    }
  }

  /** Listed before, unheld, or too much. */
  predicate Refused(members: seq<Profile>, line: Line, seen: set<Text>, totals: map<nat, nat>) {
    Key(line) in seen || Holder(members, line).None?
    || NewTotal(totals, Holder(members, line).value, line.cents) > Dollars.MAX_CENTS
  }

  /** The rows are no lines, or lines to refuse. */
  ghost predicate BadRows(members: seq<Profile>, rows: Csv.Table) {
    LinesOf(rows).None? || Refusable(members, LinesOf(rows).value)
  }

  lemma {:induction false} BadFront(members: seq<Profile>, rows: Csv.Table, n: nat)
    requires n <= |rows| && BadRows(members, rows[..n])
    ensures BadRows(members, rows)
  {
    LinesOfFront(rows, n);
    if LinesOf(rows).Some? {
      RefusableFront(members, LinesOf(rows).value, n);
    }
  }

  lemma {:induction false} NextRow(rows: Csv.Table, n: nat)
    requires n < |rows| && LinesOf(rows[..n]).Some?
    ensures var line := LineOf(rows[n]);
            LinesOf(rows[..n + 1]) == if line.None? then None else Some(LinesOf(rows[..n]).value + [line.value])
  {
    assert rows[..n + 1][..n] == rows[..n];
  }

  ghost predicate RowsSoFar(members: seq<Profile>, rows: Csv.Table, seen: set<Text>, totals: map<nat, nat>) {
    LinesOf(rows).Some? && SoFar(members, LinesOf(rows).value, seen, totals)
  }

  /** A row spoils the file, or its line is tallied. */
  lemma {:induction false} OneRow(members: seq<Profile>, rows: Csv.Table, n: nat, seen: set<Text>,
                                  totals: map<nat, nat>)
    requires n < |rows| && RowsSoFar(members, rows[..n], seen, totals)
    ensures var line := LineOf(rows[n]);
            if line.None? || Refused(members, line.value, seen, totals) then BadRows(members, rows)
            else
              var k := Holder(members, line.value).value;
              RowsSoFar(members, rows[..n + 1], seen + {Key(line.value)}, totals[k := NewTotal(totals, k, line.value.cents)])
  {
    NextRow(rows, n);
    if LineOf(rows[n]).Some? {
      OneLine(members, LinesOf(rows[..n]).value, LineOf(rows[n]).value, seen, totals);
    }
    if BadRows(members, rows[..n + 1]) {
      BadFront(members, rows, n + 1);
    }
  }

  lemma {:induction false} NoRowsYet(members: seq<Profile>)
    ensures RowsSoFar(members, [], {}, map[])
  {
    var lines: seq<Line>, totals: map<nat, nat> := [], map[];
    forall k: nat
      ensures TallyOf(members, lines, totals, k)
    {
    }
  }

  lemma {:induction false} AllRows(members: seq<Profile>, rows: Csv.Table, seen: set<Text>, totals: map<nat, nat>)
    requires RowsSoFar(members, rows, seen, totals)
    ensures !BadRows(members, rows) && Tallied(members, LinesOf(rows).value, totals)
  {
    SoFarFits(members, LinesOf(rows).value, seen, totals);
  }

  /** previewCsv()'s loop over the rows below the header: the totals of the members with a
      line, by position in the member list, or None where a row is refused. */
  method Totals(members: seq<Profile>, rows: Csv.Table) returns (all: Option<map<nat, nat>>)
    ensures all.None? <==> BadRows(members, rows)
    ensures all.Some? ==> Tallied(members, LinesOf(rows).value, all.value)
  {
    var seen: set<Text> := {};
    var totals: map<nat, nat> := map[];
    NoRowsYet(members);
    assert rows[..0] == [];
    for n := 0 to |rows|
      invariant RowsSoFar(members, rows[..n], seen, totals)
    {
      OneRow(members, rows, n, seen, totals);
      var read := LineOf(rows[n]);
      if read.None? {
        return None;
      }
      var line := read.value;
      var at := Holder(members, line);
      if Key(line) in seen || at.None? {
        return None;
      }
      var total := NewTotal(totals, at.value, line.cents);
      if total > Dollars.MAX_CENTS {
        return None;
      }
      seen := seen + {Key(line)};
      totals := totals[at.value := total];
    }
    assert rows[..|rows|] == rows;
    AllRows(members, rows, seen, totals);
    all := Some(totals);
  }

  // ---------------------------------------------------------------- the month of a file

  function RebateRow(m: Profile, commission: nat): RebateLine {
    var rebate := commission * m.rebatePercent / 100;
    RebateLine(m.id, commission, rebate, rebate >= MINIMUM_REBATE, m.rebatePercent)
  }

  function RowAt(members: seq<Profile>, lines: seq<Line>, k: nat): RebateLine
    requires k < |members|
  {
    RebateRow(members[k], CentsFor(members, lines, k))
  }

  /** One row per member with a line, in member order. */
  function RowsUpTo(members: seq<Profile>, lines: seq<Line>, k: nat): seq<RebateLine>
    requires k <= |members|
  {
    if k == 0 then [] else
      RowsUpTo(members, lines, k - 1)
      + (if HasLine(members, lines, k - 1) then [RowAt(members, lines, k - 1)] else [])
  }

  /** The month the program makes of a period and a file, or None where it refuses. */
  ghost function MonthOf(members: seq<Profile>, period: nat, current: nat, csv: Text): Option<Month> {
    var lines := FileLines(csv);
    if period >= current || lines.None? || lines.value == [] || Refusable(members, lines.value) then None
    else Some(Month(period, RowsUpTo(members, lines.value, |members|)))
  }

  predicate OneRowEach(rows: seq<RebateLine>) {
    forall i, k | 0 <= i < k < |rows| :: rows[i].owner != rows[k].owner
  }

  /** The floor of the owner's share, qualified exactly from the minimum on. */
  predicate FloorShare(r: RebateLine) {
    r.rebate == r.commission * r.rate / 100 && (r.qualified <==> r.rebate >= MINIMUM_REBATE)
  }

  /** The row of one of the first members, who has a line. */
  predicate RowOf(members: seq<Profile>, lines: seq<Line>, k: nat, r: RebateLine)
    requires k <= |members|
  {
    exists i :: 0 <= i < k && HasLine(members, lines, i) && r == RowAt(members, lines, i)
  }

  lemma {:induction false} RowsUpToSpec(members: seq<Profile>, lines: seq<Line>, k: nat)
    requires k <= |members|
    ensures forall r | r in RowsUpTo(members, lines, k) :: RowOf(members, lines, k, r)
    ensures forall i: nat | i < k && HasLine(members, lines, i) :: RowAt(members, lines, i) in RowsUpTo(members, lines, k)
  {
    if k > 0 {
      RowsUpToSpec(members, lines, k - 1);
      forall r | r in RowsUpTo(members, lines, k)
        ensures RowOf(members, lines, k, r)
      {
        if r in RowsUpTo(members, lines, k - 1) {
          assert RowOf(members, lines, k - 1, r);
        }
      }
    }
  }

  lemma {:induction false} RowsUpToApart(members: seq<Profile>, lines: seq<Line>, k: nat)
    requires k <= |members| && OwnersApart(members)
    ensures OneRowEach(RowsUpTo(members, lines, k))
  {
    if k > 0 {
      RowsUpToApart(members, lines, k - 1);
      RowsUpToSpec(members, lines, k - 1);
      forall r | r in RowsUpTo(members, lines, k - 1)
        ensures r.owner != members[k - 1].id
      {
        assert RowOf(members, lines, k - 1, r);
      }
    }
  }

  /** A month's rows: one per owner, each the floor share of exactly the cents of the lines
      whose verified account is that owner's; and every line counts in one row. */
  lemma {:induction false} MonthRows(members: seq<Profile>, period: nat, current: nat, csv: Text)
    requires ClaimsOk(members) && MonthOf(members, period, current, csv).Some?
    ensures var lines, rows := FileLines(csv).value, MonthOf(members, period, current, csv).value.rows;
            && OneRowEach(rows)
            && (forall r | r in rows :: RowOf(members, lines, |members|, r) && FloorShare(r) && r.commission <= Dollars.MAX_CENTS)
            && (forall n, k: nat | 0 <= n < |lines| && Holder(members, lines[n]) == Some(k) ::
                  k < |members| && RowAt(members, lines, k) in rows)
            && (forall n | 0 <= n < |lines| :: Holder(members, lines[n]).Some?)
  {
    var lines, rows := FileLines(csv).value, MonthOf(members, period, current, csv).value.rows;
    RowsUpToSpec(members, lines, |members|);
    RowsUpToApart(members, lines, |members|);
    forall r | r in rows
      ensures FloorShare(r) && r.commission <= Dollars.MAX_CENTS
    {
      assert RowOf(members, lines, |members|, r);
    }
    forall n | 0 <= n < |lines|
      ensures Holder(members, lines[n]).Some?
    {
      var m: nat := n;
      assert !BadLine(members, lines, m);
    }
  }

  /** Every line's account is verified for some member, and listed once. */
  predicate AllMatched(members: seq<Profile>, lines: seq<Line>) {
    && (forall n | 0 <= n < |lines| :: exists i :: 0 <= i < |members| && Holds(members[i], lines[n].exchange, lines[n].uid))
    && (forall i, n | 0 <= i < n < |lines| :: lines[i].exchange + [COLON] + lines[i].uid != lines[n].exchange + [COLON] + lines[n].uid)
  }

  lemma {:induction false} NoneBadIsMatched(members: seq<Profile>, lines: seq<Line>)
    ensures AllMatched(members, lines) <==> NoneBad(members, lines)
  {
    if NoneBad(members, lines) {
      forall n | 0 <= n < |lines|
        ensures exists i :: 0 <= i < |members| && Holds(members[i], lines[n].exchange, lines[n].uid)
      {
        var m: nat := n;
        assert !BadLine(members, lines, m);
      }
      forall i, n | 0 <= i < n < |lines|
        ensures lines[i].exchange + [COLON] + lines[i].uid != lines[n].exchange + [COLON] + lines[n].uid
      {
        var m: nat := n;
        assert !BadLine(members, lines, m);
        assert Key(lines[i]) != Key(lines[n]);
      }
    } else {
      var n: nat :| n < |lines| && BadLine(members, lines, n);
      if Holder(members, lines[n]).Some? {
        var i :| 0 <= i < n && Key(lines[i]) == Key(lines[n]);
      }
    }
  }

  lemma {:induction false} RefusableIs(members: seq<Profile>, lines: seq<Line>)
    ensures Refusable(members, lines) <==> !NoneBad(members, lines) || exists k: nat :: CentsFor(members, lines, k) > 100_000_000
  {
    if NoneBad(members, lines) {
      assert !(exists n: nat :: n < |lines| && BadLine(members, lines, n));
      if Refusable(members, lines) {
        assert exists k: nat :: CentsFor(members, lines, k) > 100_000_000;
      }
    } else {
      var n: nat :| n < |lines| && BadLine(members, lines, n);
    }
  }

  /** A month is made of a file exactly when the period is over, the file has lines and none
      is malformed, all of them are matched, and nobody's commissions exceed $1,000,000. */
  lemma {:induction false} MonthExact(members: seq<Profile>, period: nat, current: nat, csv: Text)
    ensures MonthOf(members, period, current, csv).Some? <==>
              && period < current && FileLines(csv).Some? && FileLines(csv).value != []
              && AllMatched(members, FileLines(csv).value)
              && forall k: nat :: CentsFor(members, FileLines(csv).value, k) <= 100_000_000
  {
    if FileLines(csv).Some? {
      var lines := FileLines(csv).value;
      NoneBadIsMatched(members, lines);
      RefusableIs(members, lines);
    }
  }

  function FileTotal(lines: seq<Line>): nat {
    if lines == [] then 0 else FileTotal(lines[..|lines| - 1]) + lines[|lines| - 1].cents
  }

  /** The commissions of a month's rows. */
  function Commissions(rows: seq<RebateLine>): nat {
    if rows == [] then 0 else Commissions(rows[..|rows| - 1]) + rows[|rows| - 1].commission
  }

  function Attributed(members: seq<Profile>, lines: seq<Line>, k: nat): nat {
    if k == 0 then 0 else Attributed(members, lines, k - 1) + CentsFor(members, lines, k - 1)
  }

  lemma {:induction false} RowsCommissions(members: seq<Profile>, lines: seq<Line>, k: nat)
    requires k <= |members|
    ensures Commissions(RowsUpTo(members, lines, k)) == Attributed(members, lines, k)
  {
    if k > 0 {
      RowsCommissions(members, lines, k - 1);
      var front := RowsUpTo(members, lines, k - 1);
      if HasLine(members, lines, k - 1) {
        assert RowsUpTo(members, lines, k)[..|front|] == front;
      } else {
        NoCentsOutside(members, lines, k - 1);
        assert front + [] == front;
      }
    }
  }

  lemma {:induction false} LineCounts(members: seq<Profile>, lines: seq<Line>, line: Line, at: nat, k: nat)
    requires Holder(members, line) == Some(at)
    ensures Attributed(members, lines + [line], k) == Attributed(members, lines, k) + if at < k then line.cents else 0
  {
    if k > 0 {
      LineCounts(members, lines, line, at, k - 1);
      assert (lines + [line])[..|lines|] == lines;
    }
  }

  lemma {:induction false} NoLines(members: seq<Profile>, k: nat)
    ensures Attributed(members, [], k) == 0
  {
    if k > 0 {
      NoLines(members, k - 1);
    }
  }

  lemma {:induction false} TotalsAddUp(members: seq<Profile>, lines: seq<Line>)
    requires forall n | 0 <= n < |lines| :: Holder(members, lines[n]).Some?
    ensures Attributed(members, lines, |members|) == FileTotal(lines)
  {
    if lines == [] {
      NoLines(members, |members|);
    } else {
      var n := |lines| - 1;
      TotalsAddUp(members, lines[..n]);
      LineCounts(members, lines[..n], lines[n], Holder(members, lines[n]).value, |members|);
      assert lines == lines[..n] + [lines[n]];
    }
  }

  /** Nothing of an accepted file is lost or counted twice: the commissions of its month add
      up to the cents of the file. */
  lemma {:induction false} MonthAddsUp(members: seq<Profile>, period: nat, current: nat, csv: Text)
    requires ClaimsOk(members) && MonthOf(members, period, current, csv).Some?
    ensures Commissions(MonthOf(members, period, current, csv).value.rows) == FileTotal(FileLines(csv).value)
  {
    MonthRows(members, period, current, csv);
    RowsCommissions(members, FileLines(csv).value, |members|);
    TotalsAddUp(members, FileLines(csv).value);
  }

  /** One row for each tallied member. */
  method Rows(members: seq<Profile>, totals: map<nat, nat>, ghost lines: seq<Line>) returns (rows: seq<RebateLine>)
    requires Tallied(members, lines, totals)
    ensures rows == RowsUpTo(members, lines, |members|)
  {
    rows := [];
    for k := 0 to |members|
      invariant rows == RowsUpTo(members, lines, k)
    {
      assert TallyOf(members, lines, totals, k);
      if k in totals {
        rows := rows + [RebateRow(members[k], totals[k])];
      }
    }
  }

  // ---------------------------------------------------------------- the month desk

  /** The members and the file a month was finalised from. */
  datatype Evidence = Evidence(members: seq<Profile>, current: nat, csv: Text)

  ghost predicate Proven(m: Month, e: Evidence) {
    ClaimsOk(e.members) && MonthOf(e.members, m.period, e.current, e.csv) == Some(m)
  }

  lemma {:induction false} ProvenNow(members: seq<Profile>, period: nat, current: nat, csv: Text, m: Month)
    requires ClaimsOk(members) && MonthOf(members, period, current, csv) == Some(m)
    ensures Proven(m, Evidence(members, current, csv)) && m.period == period
  {
  }

  /** Claims are unambiguous, each period is finalised at most once, from some file and the
      members of its time, and the rebate entries are exactly the qualified rows. */
  ghost predicate DeskOk(members: seq<Profile>, entries: seq<Entry>, months: seq<Month>, evidence: seq<Evidence>) {
    ClaimsOk(members) && OncePerPeriod(months) && AllProven(months, evidence) && AllCredited(entries, months) && Earned(entries)
  }

  lemma {:induction false} FinaliseKeeps(members: seq<Profile>, entries: seq<Entry>, months: seq<Month>,
                                         evidence: seq<Evidence>, m: Month, e: Evidence)
    requires DeskOk(members, entries, months, evidence) && Proven(m, e)
    requires forall i | 0 <= i < |months| :: months[i].period != m.period
    ensures DeskOk(members, Posted(entries, m, m.rows), months + [m], evidence + [e])
  {
    ImportCredits(entries, months, m);
    ImportProven(months, evidence, m, e);
    MonthRows(e.members, m.period, e.current, e.csv);
    PostedEarned(entries, m, m.rows);
  }

  datatype Finalising = Imported | Duplicate | Rejected

  class Desk {
    var members: seq<Profile>
    var entries: seq<Entry>
    var months: seq<Month>
    var revisions: nat
    ghost var evidence: seq<Evidence>

    constructor ()
      ensures Valid() && members == [] && entries == [] && months == []
    {
      members, entries, months, revisions, evidence := [], [], [], 0, [];
    }

    ghost predicate Valid()
      reads this
    {
      DeskOk(members, entries, months, evidence)
    }

    method Join(id: string) returns (joined: bool)
      requires Valid()
      modifies this`members
      ensures Valid()
      ensures joined <==> forall i | 0 <= i < |old(members)| :: old(members[i].id) != id
      ensures members == if joined then old(members) + [Profile(id, [], 35)] else old(members)
    {
      for i := 0 to |members|
        invariant forall k | 0 <= k < i :: members[k].id != id
      {
        if members[i].id == id {
          return false;
        }
      }
      members := members + [Profile(id, [], DEFAULT_SHARE)];
      joined := true;
    }

    method SetShare(k: nat, percent: int) returns (ok: bool)
      requires Valid() && k < |members|
      modifies this`members
      ensures Valid()
      ensures ok <==> 0 <= percent <= 100
      ensures members == if ok then old(members)[k := old(members[k]).(rebatePercent := percent)] else old(members)
    {
      if percent < 0 || percent > 100 {
        return false;
      }
      ReplaceMember(members, k, members[k].(rebatePercent := percent));
      members := members[k := members[k].(rebatePercent := percent)];
      ok := true;
    }

    method Claim(k: nat, exchange: Text, uid: Text, expected: Option<(Text, nat)>) returns (ok: bool)
      requires Valid() && k < |members|
      modifies this`members, this`revisions
      ensures Valid()
      ensures var r := AddUid(old(members[k]), exchange, uid, expected, old(revisions));
              ok == r.Some? && members == if ok then old(members)[k := r.value] else old(members)
    {
      var r := AddUid(members[k], exchange, uid, expected, revisions);
      if r.None? {
        return false;
      }
      AddUidKeepsClaims(members, k, exchange, uid, expected, revisions);
      members, revisions := members[k := r.value], revisions + 1;
      ok := true;
    }

    method Verify(k: nat, exchange: Text, uid: Text, verified: bool, revision: nat) returns (ok: bool)
      requires Valid() && k < |members|
      modifies this`members, this`revisions
      ensures Valid()
      ensures var r := SetVerified(old(members), k, exchange, uid, verified, revision, old(revisions));
              ok == r.Some? && members == if ok then r.value else old(members)
    {
      var r := SetVerified(members, k, exchange, uid, verified, revision, revisions);
      if r.None? {
        return false;
      }
      SetVerifiedKeepsClaims(members, k, exchange, uid, verified, revision, revisions);
      members, revisions := r.value, revisions + 1;
      ok := true;
    }

    /** previewCsv(): None is a refusal. */
    method Preview(period: nat, current: nat, csv: Text) returns (month: Option<Month>)
      requires Valid()
      ensures month == MonthOf(members, period, current, csv)
    {
      if period >= current {
        return None;
      }
      var table := Csv.ReadRows(Unmarked(csv));
      if !table.Rows? || table.rows == [] || Joined(table.rows[0]) != HEADER || |table.rows| == 1 {
        return None;
      }
      var all := Totals(members, table.rows[1..]);
      if all.None? {
        return None;
      }
      var rows := Rows(members, all.value, LinesOf(table.rows[1..]).value);
      month := Some(Month(period, rows));
    }

    /** importCsv(): the file is read again with the members of now, and its month must be
        the reviewed one. A period is finalised once; a second import of the same month is a
        duplicate and any other a refusal, and neither posts anything. */
    method Import(period: nat, current: nat, csv: Text, reviewed: Month) returns (outcome: Finalising)
      requires Valid()
      modifies this`entries, this`months, this`evidence
      ensures Valid()
      ensures var preview := MonthOf(members, period, current, csv);
              && (outcome.Imported? <==> preview == Some(reviewed) && forall i | 0 <= i < |old(months)| :: old(months[i].period) != period)
              && (outcome.Duplicate? <==> preview == Some(reviewed) && reviewed in old(months))
      ensures outcome.Imported? ==>
                && months == old(months) + [reviewed]
                && evidence == old(evidence) + [Evidence(members, current, csv)]
                && entries == Posted(old(entries), reviewed, reviewed.rows)
      ensures !outcome.Imported? ==> months == old(months) && entries == old(entries)
    {
      var preview := Preview(period, current, csv);
      if preview != Some(reviewed) {
        return Rejected;
      }
      ProvenNow(members, period, current, csv, reviewed);
      var prior := Find(period);
      if prior.Some? {
        return if months[prior.value] == reviewed then Duplicate else Rejected;
      }
      Finalise(reviewed, Evidence(members, current, csv));
      outcome := Imported;
    }

    /** The last part of importCsv(): the credits and the month. */
    method Finalise(month: Month, ghost e: Evidence)
      requires Valid() && Proven(month, e) && forall i | 0 <= i < |months| :: months[i].period != month.period
      modifies this`entries, this`months, this`evidence
      ensures Valid() && months == old(months) + [month] && evidence == old(evidence) + [e]
      ensures entries == Posted(old(entries), month, month.rows)
    {
      FinaliseKeeps(members, entries, months, evidence, month, e);
      PostCredits(month);
      months, evidence := months + [month], evidence + [e];
    }

    method Find(period: nat) returns (at: Option<nat>)
      requires OncePerPeriod(months)
      ensures at.Some? ==> at.value < |months| && months[at.value].period == period
      ensures at.Some? ==> forall m | m in months && m.period == period :: m == months[at.value]
      ensures at.None? <==> forall i | 0 <= i < |months| :: months[i].period != period
    {
      for i := 0 to |months|
        invariant forall k | 0 <= k < i :: months[k].period != period
      {
        if months[i].period == period {
          return Some(i);
        }
      }
      at := None;
    }

    /** The loop over the rows of importCsv(). */
    method PostCredits(month: Month)
      modifies this`entries
      ensures entries == Posted(old(entries), month, month.rows)
    {
      for i := 0 to |month.rows|
        invariant entries == Posted(old(entries), month, month.rows[..i])
      {
        var r := month.rows[i];
        assert month.rows[..i + 1][..i] == month.rows[..i];
        if r.qualified {
          entries := entries + [Credit(|entries|, month.period, r)];
        }
      }
      assert month.rows[..|month.rows|] == month.rows;
    }
  }

  predicate OncePerPeriod(months: seq<Month>) {
    forall i, k | 0 <= i < k < |months| :: months[i].period != months[k].period
  }

  function Credit(at: nat, period: nat, r: RebateLine): Entry {
    Entry(at, r.owner, Exchange, Earning, r.rebate, period, Reference.Rebate(period, r.owner), "", false, None)
  }

  /** The ledger with the entries of a month's qualified rows behind it, in order. */
  function Posted(es: seq<Entry>, month: Month, rows: seq<RebateLine>): seq<Entry> {
    if rows == [] then es else
      var n := |rows| - 1;
      var front := Posted(es, month, rows[..n]);
      if rows[n].qualified then front + [Credit(|front|, month.period, rows[n])] else front
  }

  /** What the finalised months credit an owner for a period. */
  function Owed(months: seq<Month>, period: nat, owner: string): seq<int> {
    if months == [] then [] else
      var n := |months| - 1;
      Owed(months[..n], period, owner) + (if months[n].period == period then RowsFor(months[n].rows, owner) else [])
  }

  function RowsFor(rows: seq<RebateLine>, owner: string): seq<int> {
    if rows == [] then [] else
      var n := |rows| - 1;
      RowsFor(rows[..n], owner) + (if rows[n].owner == owner && rows[n].qualified then [rows[n].rebate as int] else [])
  }

  /** An owner's entries of one program and month. */
  function InMonth(owner: string, s: Source, period: nat): Measure {
    (e: Entry) => if e.owner == owner && e.source == s && e.period == period then e.cents else 0
  }

  /** The entries under the owner's reference are what is owed, and so is what the owner gets
      in the exchange program; nothing is credited in another. */
  ghost predicate Credited(es: seq<Entry>, months: seq<Month>, period: nat, owner: string) {
    && Cents(es, Reference.Rebate(period, owner)) == Owed(months, period, owner)
    && Sum(es, InMonth(owner, Exchange, period)) == Total(Owed(months, period, owner))
    && Sum(es, InMonth(owner, Referral, period)) == Sum(es, InMonth(owner, Marketplace, period)) == 0
  }

  lemma {:induction false} TotalOne(x: int)
    ensures Total([x]) == x && Total([]) == 0
  {
    assert [x][..0] == [];
  }

  lemma {:induction false} LastRow(rows: seq<RebateLine>, owner: string)
    requires rows != []
    ensures var n := |rows| - 1;
            Total(RowsFor(rows, owner))
            == Total(RowsFor(rows[..n], owner)) + (if rows[n].owner == owner && rows[n].qualified then rows[n].rebate else 0)
  {
    var n := |rows| - 1;
    TotalAppend(RowsFor(rows[..n], owner), if rows[n].owner == owner && rows[n].qualified then [rows[n].rebate as int] else []);
    TotalOne(rows[n].rebate);
  }

  lemma {:induction false} LastCredit(es: seq<Entry>, month: Month, rows: seq<RebateLine>, f: Measure)
    requires rows != []
    ensures var n := |rows| - 1;
            var front := Posted(es, month, rows[..n]);
            Sum(Posted(es, month, rows), f)
            == Sum(front, f) + (if rows[n].qualified then f(Credit(|front|, month.period, rows[n])) else 0)
  {
    var n := |rows| - 1;
    if rows[n].qualified {
      var front := Posted(es, month, rows[..n]);
      SumAppend(front, [Credit(|front|, month.period, rows[n])], f);
      SumOne(Credit(|front|, month.period, rows[n]), f);
    }
  }

  lemma {:induction false} PostedSum(es: seq<Entry>, month: Month, rows: seq<RebateLine>, period: nat,
                                     owner: string, s: Source)
    ensures Sum(Posted(es, month, rows), InMonth(owner, s, period))
         == Sum(es, InMonth(owner, s, period))
            + (if s == Exchange && period == month.period then Total(RowsFor(rows, owner)) else 0)
  {
    if rows == [] {
      TotalOne(0);
    } else {
      PostedSum(es, month, rows[..|rows| - 1], period, owner, s);
      LastRow(rows, owner);
      LastCredit(es, month, rows, InMonth(owner, s, period));
    }
  }

  lemma {:induction false} EntryPush(es: seq<Entry>, e: Entry, r: Reference)
    ensures Cents(es + [e], r) == if e.reference == r then Cents(es, r) + [e.cents] else Cents(es, r)
  {
    assert (es + [e])[..|es|] == es;
  }

  lemma {:induction false} LastRowFor(rows: seq<RebateLine>, owner: string)
    requires rows != []
    ensures var n := |rows| - 1;
            RowsFor(rows, owner)
            == if rows[n].owner == owner && rows[n].qualified then RowsFor(rows[..n], owner) + [rows[n].rebate as int]
               else RowsFor(rows[..n], owner)
  {
  }

  lemma {:induction false} PostedCents(es: seq<Entry>, month: Month, rows: seq<RebateLine>, period: nat, owner: string)
    ensures Cents(Posted(es, month, rows), Reference.Rebate(period, owner))
         == if period == month.period then Cents(es, Reference.Rebate(period, owner)) + RowsFor(rows, owner)
            else Cents(es, Reference.Rebate(period, owner))
  {
    if rows != [] {
      var n := |rows| - 1;
      var front := Posted(es, month, rows[..n]);
      PostedCents(es, month, rows[..n], period, owner);
      LastRowFor(rows, owner);
      if rows[n].qualified {
        EntryPush(front, Credit(|front|, month.period, rows[n]), Reference.Rebate(period, owner));
      }
    }
  }

  ghost predicate AllCredited(es: seq<Entry>, months: seq<Month>) {
    forall period: nat, owner: string :: Credited(es, months, period, owner)
  }

  ghost predicate AllProven(months: seq<Month>, evidence: seq<Evidence>) {
    |evidence| == |months| && forall i | 0 <= i < |months| :: Proven(months[i], evidence[i])
  }

  lemma {:induction false} OneMonthMore(es: seq<Entry>, months: seq<Month>, month: Month, period: nat, owner: string)
    requires Credited(es, months, period, owner)
    ensures Credited(Posted(es, month, month.rows), months + [month], period, owner)
  {
    PostedCents(es, month, month.rows, period, owner);
    PostedSum(es, month, month.rows, period, owner, Exchange);
    PostedSum(es, month, month.rows, period, owner, Referral);
    PostedSum(es, month, month.rows, period, owner, Marketplace);
    assert (months + [month])[..|months|] == months;
    TotalAppend(Owed(months, period, owner), if month.period == period then RowsFor(month.rows, owner) else []);
    TotalOne(0);
  }

  lemma {:induction false} ImportCredits(es: seq<Entry>, months: seq<Month>, month: Month)
    requires AllCredited(es, months)
    ensures AllCredited(Posted(es, month, month.rows), months + [month])
  {
    forall period: nat, owner: string
      ensures Credited(Posted(es, month, month.rows), months + [month], period, owner)
    {
      assert Credited(es, months, period, owner);
      OneMonthMore(es, months, month, period, owner);
    }
  }

  lemma {:induction false} ImportProven(months: seq<Month>, evidence: seq<Evidence>, m: Month, e: Evidence)
    requires AllProven(months, evidence) && Proven(m, e)
    ensures AllProven(months + [m], evidence + [e])
  {
  }

  /** A finalised period credits an owner what the owner's row says, at most once. */
  lemma {:induction false} OwedRow(months: seq<Month>, i: nat, r: RebateLine)
    requires i < |months| && r in months[i].rows && OneRowEach(months[i].rows) && OncePerPeriod(months)
    ensures Owed(months, months[i].period, r.owner) == if r.qualified then [r.rebate as int] else []
  {
    var n := |months| - 1;
    if i == n {
      NothingOwed(months[..n], months[i].period, r.owner);
      RowFound(months[i].rows, r);
    } else {
      OwedRow(months[..n], i, r);
    }
  }

  /** In every state of the desk a stored row is the floor share of somebody's lines. */
  lemma {:induction false} StoredRows(d: Desk, i: nat, r: RebateLine)
    requires d.Valid() && i < |d.months| && r in d.months[i].rows
    ensures var e := d.evidence[i];
            FloorShare(r) && RowOf(e.members, FileLines(e.csv).value, |e.members|, r)
  {
    var m, e := d.months[i], d.evidence[i];
    assert Proven(m, e);
    MonthRows(e.members, m.period, e.current, e.csv);
  }

  /** Every entry of the desk is an operator's earning under the reference of its month and owner. */
  predicate Earned(es: seq<Entry>) {
    forall i | 0 <= i < |es| ::
      && es[i].id == i && es[i].kind == Earning && !es[i].byStripe && es[i].reverses.None?
      && es[i].reference == Reference.Rebate(es[i].period, es[i].owner) && es[i].cents >= MINIMUM_REBATE
  }

  lemma {:induction false} PostedEarned(es: seq<Entry>, month: Month, rows: seq<RebateLine>)
    requires Earned(es) && forall r | r in rows :: FloorShare(r)
    ensures Earned(Posted(es, month, rows))
  {
    if rows != [] {
      assert rows[|rows| - 1] in rows && forall r | r in rows[..|rows| - 1] :: r in rows;
      PostedEarned(es, month, rows[..|rows| - 1]);
    }
  }

  /** In every state of the desk, whoever held the verified account of a line of a finalised
      file is credited for that period exactly once, with the floor of the share of all the
      cents of such lines, if that floor is at least the minimum; and nothing otherwise. */
  lemma {:induction false} CreditedOnce(d: Desk, i: nat, k: nat)
    requires d.Valid() && i < |d.months| && k < |d.evidence[i].members|
    requires HasLine(d.evidence[i].members, FileLines(d.evidence[i].csv).value, k)
    ensures var m, e := d.months[i], d.evidence[i];
            var cents := CentsFor(e.members, FileLines(e.csv).value, k);
            var floor := cents * e.members[k].rebatePercent / 100;
            var owner := e.members[k].id;
            && Cents(d.entries, Reference.Rebate(m.period, owner)) == (if floor >= 1500 then [floor] else [])
            && Sum(d.entries, InMonth(owner, Exchange, m.period)) == (if floor >= 1500 then floor else 0)
            && Sum(d.entries, InMonth(owner, Referral, m.period)) == Sum(d.entries, InMonth(owner, Marketplace, m.period)) == 0
  {
    TotalOne(0);
    var m, e := d.months[i], d.evidence[i];
    assert Proven(m, e);
    MonthRows(e.members, m.period, e.current, e.csv);
    var lines := FileLines(e.csv).value;
    var n :| 0 <= n < |lines| && Holder(e.members, lines[n]) == Some(k);
    var r := RowAt(e.members, lines, k);
    OwedRow(d.months, i, r);
    TotalOne(r.rebate);
    assert Credited(d.entries, d.months, m.period, r.owner);
  }

  /** Nobody else is credited: without a row of the period there is no rebate entry. */
  lemma {:induction false} NobodyElse(d: Desk, period: nat, owner: string)
    requires d.Valid()
    requires forall i, r | 0 <= i < |d.months| && d.months[i].period == period && r in d.months[i].rows :: r.owner != owner
    ensures Cents(d.entries, Reference.Rebate(period, owner)) == []
    ensures forall s :: Sum(d.entries, InMonth(owner, s, period)) == 0
  {
    TotalOne(0);
    NoRowsOwed(d.months, period, owner);
    assert Credited(d.entries, d.months, period, owner);
    forall s: Source
      ensures Sum(d.entries, InMonth(owner, s, period)) == 0
    {
      assert s == Exchange || s == Referral || s == Marketplace;
    }
  }

  lemma {:induction false} NoRowsOwed(months: seq<Month>, period: nat, owner: string)
    requires forall i, r | 0 <= i < |months| && months[i].period == period && r in months[i].rows :: r.owner != owner
    ensures Owed(months, period, owner) == []
  {
    if months != [] {
      var n := |months| - 1;
      NoRowsOwed(months[..n], period, owner);
      if months[n].period == period {
        NoRows(months[n].rows, owner);
      }
    }
  }

  lemma {:induction false} NothingOwed(months: seq<Month>, period: nat, owner: string)
    requires forall i | 0 <= i < |months| :: months[i].period != period
    ensures Owed(months, period, owner) == []
  {
    if months != [] {
      NothingOwed(months[..|months| - 1], period, owner);
    }
  }

  lemma {:induction false} RowFound(rows: seq<RebateLine>, r: RebateLine)
    requires r in rows && OneRowEach(rows)
    ensures RowsFor(rows, r.owner) == if r.qualified then [r.rebate as int] else []
  {
    var n := |rows| - 1;
    if rows[n] == r {
      NoRows(rows[..n], r.owner);
    } else {
      assert r in rows[..n];
      RowFound(rows[..n], r);
    }
  }

  lemma {:induction false} NoRows(rows: seq<RebateLine>, owner: string)
    requires forall i | 0 <= i < |rows| :: rows[i].owner != owner
    ensures RowsFor(rows, owner) == []
  {
    if rows != [] {
      NoRows(rows[..|rows| - 1], owner);
    }
  }
}
