/** Hosting fees: one debit per member and month, whenever and however often the fees are
    assessed; and the month strings the program compares. */
module Hosting {
  import opened Basics
  import opened Ledger
  import opened Book
  import opened BookInvariants

  // ---------------------------------------------------------------- confluence

  /** The debits of one month, after an assessment that owes it or not. */
  function Debited(cents: seq<int>, owed: bool, amount: int): seq<int> {
    if owed && cents == [] then [-amount] else cents
  }

  lemma {:induction false} DebitedTwice(cents: seq<int>, first: bool, second: bool, amount: int)
    ensures Debited(Debited(cents, first, amount), second, amount) == Debited(cents, first || second, amount)
  {
  }

  lemma {:induction false} FirstUnder(es: seq<Entry>, e: Entry, r: Reference)
    requires Cents(es, e.reference) == []
    ensures Cents(es + [e], r) == if r == e.reference then [e.cents] else Cents(es, r)
  {
    CentsPush(es, e, r);
  }

  lemma {:induction false} AssessedOnce(es: seq<Entry>, m: string, amount: int, at: nat)
    ensures AssessMonth(es, m, amount, at) == if Cents(es, HostingFee(m, at)) == [] then es + [FeeEntry(|es|, m, amount, at)] else es
  {
    FoundFirst(es, HostingFee(m, at));
  }

  /** One month of one member. */
  lemma {:induction false} AssessOne(es: seq<Entry>, m: string, amount: int, at: nat, member: string, p: nat)
    ensures Cents(AssessMonth(es, m, amount, at), HostingFee(member, p))
         == Debited(Cents(es, HostingFee(member, p)), member == m && p == at, amount)
  {
    var own, r, fee := HostingFee(m, at), HostingFee(member, p), FeeEntry(|es|, m, amount, at);
    AssessedOnce(es, m, amount, at);
    if Cents(es, own) == [] {
      FirstUnder(es, fee, r);
    }
    assert r == own <==> member == m && p == at;
  }

  /** What each month's debit does, the months from `at` to `to` do together. */
  lemma {:induction false} MonthsFold(look: seq<Entry> -> seq<int>, es: seq<Entry>, m: string, amount: int, at: nat, to: int,
                                      mine: bool, p: nat)
    requires forall before: seq<Entry>, month: nat ::
               look(AssessMonth(before, m, amount, month)) == Debited(look(before), mine && p == month, amount)
    ensures look(AssessMonths(es, m, amount, at, to)) == Debited(look(es), mine && at <= p <= to, amount)
    decreases if at <= to then to - at + 1 else 0
  {
    if at <= to {
      MonthsFold(look, AssessMonth(es, m, amount, at), m, amount, at + 1, to, mine, p);
      DebitedTwice(look(es), mine && p == at, mine && at + 1 <= p <= to, amount);
    }
  }

  lemma {:induction false} AssessMonthsEffect(es: seq<Entry>, m: string, amount: int, at: nat, to: int,
                                              member: string, p: nat)
    ensures Cents(AssessMonths(es, m, amount, at, to), HostingFee(member, p))
         == Debited(Cents(es, HostingFee(member, p)), member == m && at <= p <= to, amount)
  {
    var look := (all: seq<Entry>) => Cents(all, HostingFee(member, p));
    forall before: seq<Entry>, month: nat
      ensures look(AssessMonth(before, m, amount, month)) == Debited(look(before), member == m && p == month, amount)
    {
      AssessOne(before, m, amount, month, member, p);
    }
    MonthsFold(look, es, m, amount, at, to, member == m, p);
  }

  predicate DistinctMembers(members: seq<Member>) {
    forall i, k | 0 <= i < k < |members| :: members[i].id != members[k].id
  }

  /** What a member owes for month p when the fees were last assessed in month `latest`. */
  predicate Owes(m: Member, p: nat, latest: nat) {
    m.fee.Some? && m.fee.value.start <= p <= latest
  }

  function FeeOf(m: Member): int { if m.fee.Some? then m.fee.value.monthlyCents else 0 }

  lemma {:induction false} AssessFromEffect(members: seq<Member>, i: nat, es: seq<Entry>, current: nat, k: nat, p: nat)
    requires DistinctMembers(members) && k < |members| && i <= |members|
    requires AssessFrom(members, i, es, current).Some?
    ensures var r := HostingFee(members[k].id, p);
            Cents(AssessFrom(members, i, es, current).value, r)
            == Debited(Cents(es, r), i <= k && Owes(members[k], p, current), FeeOf(members[k]))
    decreases |members| - i
  {
    if i < |members| {
      var m := members[i];
      assert i != k ==> m.id != members[k].id;
      if m.fee.Some? && m.fee.value.start <= current {
        var fee := m.fee.value;
        var next := AssessMonths(es, m.id, fee.monthlyCents, fee.start, current);
        AssessMonthsEffect(es, m.id, fee.monthlyCents, fee.start, current, members[k].id, p);
        AssessFromEffect(members, i + 1, next, current, k, p);
      } else {
        AssessFromEffect(members, i + 1, es, current, k, p);
      }
    }
  }

  /** Assessing at each of several times in turn; None as soon as one needs review. */
  function AssessAll(b: Book, times: seq<nat>): Option<Book> {
    if times == [] then Some(b) else
      var before := AssessAll(b, times[..|times| - 1]);
      if before.None? then None else AssessHostingFees(before.value, times[|times| - 1])
  }

  function Latest(times: seq<nat>): nat
    requires times != []
  {
    if |times| == 1 then times[0] else Max(Latest(times[..|times| - 1]), times[|times| - 1])
  }

  /** Confluence: after any assessments, in any order and with any repetitions, each month
      from a member's start to the latest assessed month carries exactly one debit of the
      monthly fee, and no other month carries any. */
  lemma {:induction false} OneDebitPerMonth(b: Book, times: seq<nat>, k: nat, p: nat)
    requires DistinctMembers(b.members) && k < |b.members| && times != []
    requires AssessAll(b, times).Some?
    requires Cents(b.entries, HostingFee(b.members[k].id, p)) == []
    ensures AssessAll(b, times).value.members == b.members
    ensures Cents(AssessAll(b, times).value.entries, HostingFee(b.members[k].id, p))
         == (if Owes(b.members[k], p, Latest(times)) then [-FeeOf(b.members[k])] else [])
  {
    var n := |times| - 1;
    var before := AssessAll(b, times[..n]).value;
    var r := HostingFee(b.members[k].id, p);
    if n == 0 {
      assert times[..n] == [];
    } else {
      OneDebitPerMonth(b, times[..n], k, p);
      DebitedTwice([], Owes(b.members[k], p, Latest(times[..n])), Owes(b.members[k], p, times[n]), FeeOf(b.members[k]));
    }
    AssessFromEffect(before.members, 0, before.entries, times[n], k, p);
  }

  /** Once a month has been assessed, assessing it or any earlier month again adds nothing. */
  lemma {:induction false} RepeatAddsNothing(members: seq<Member>, i: nat, es: seq<Entry>, current: nat)
    requires i <= |members| && AssessFrom(members, i, es, current).Some?
    requires forall k, p | i <= k < |members| && Owes(members[k], p, current) :: Cents(es, HostingFee(members[k].id, p)) != []
    ensures AssessFrom(members, i, es, current).value == es
    decreases |members| - i
  {
    if i < |members| {
      var m := members[i];
      if m.fee.Some? && m.fee.value.start <= current {
        forall p: nat | m.fee.value.start <= p <= current
          ensures FindReference(es, HostingFee(m.id, p)).Some?
        {
          assert Owes(members[i], p, current);
          FoundFirst(es, HostingFee(m.id, p));
        }
        MonthsAllThere(es, m.id, m.fee.value.monthlyCents, m.fee.value.start, current);
      }
      RepeatAddsNothing(members, i + 1, es, current);
    }
  }

  lemma {:induction false} MonthsAllThere(es: seq<Entry>, m: string, amount: int, at: nat, to: int)
    requires forall p: nat | at <= p <= to :: FindReference(es, HostingFee(m, p)).Some?
    ensures AssessMonths(es, m, amount, at, to) == es
    decreases if at <= to then to - at + 1 else 0
  {
    if at <= to {
      assert FindReference(es, HostingFee(m, at)).Some?;
      MonthsAllThere(es, m, amount, at + 1, to);
    }
  }

  // ---------------------------------------------------------------- who is charged, and what is refused

  /** A debit of this member's fee for one of these months. */
  predicate FeeLine(e: Entry, m: string, amount: int, from: nat, to: int) {
    && e.owner == m && e.source == Referral && e.kind == Adjustment && e.cents == -amount && from <= e.period <= to
    && e.reference == HostingFee(m, e.period) && !e.byStripe && e.reverses.None?
  }

  predicate Owed(e: Entry, members: seq<Member>, current: nat) {
    exists k :: 0 <= k < |members| && members[k].fee.Some?
                && FeeLine(e, members[k].id, members[k].fee.value.monthlyCents, members[k].fee.value.start, current)
  }

  /** A ledger with more entries behind it, all of one sort. */
  predicate Extends(es: seq<Entry>, after: seq<Entry>, ok: Entry -> bool) {
    |es| <= |after| && after[..|es|] == es && forall x | |es| <= x < |after| :: ok(after[x])
  }

  lemma {:induction false} ExtendsTwice(es: seq<Entry>, next: seq<Entry>, after: seq<Entry>, ok: Entry -> bool)
    requires Extends(es, next, ok) && Extends(next, after, ok)
    ensures Extends(es, after, ok)
  {
    assert after[..|es|] == after[..|next|][..|es|];
    forall x | |es| <= x < |after|
      ensures ok(after[x])
    {
      assert x < |next| ==> after[x] == after[..|next|][x];
    }
  }

  lemma {:induction false} MonthsOwned(es: seq<Entry>, m: string, amount: int, at: nat, to: int, ok: Entry -> bool)
    requires forall e | FeeLine(e, m, amount, at, to) :: ok(e)
    ensures Extends(es, AssessMonths(es, m, amount, at, to), ok)
    decreases if at <= to then to - at + 1 else 0
  {
    if at <= to {
      var next := AssessMonth(es, m, amount, at);
      assert FeeLine(FeeEntry(|es|, m, amount, at), m, amount, at, to);
      forall e | FeeLine(e, m, amount, at + 1, to) ensures ok(e) { assert FeeLine(e, m, amount, at, to); }
      MonthsOwned(next, m, amount, at + 1, to, ok);
      ExtendsTwice(es, next, AssessMonths(es, m, amount, at, to), ok);
    }
  }

  function OwedBy(members: seq<Member>, current: nat): Entry -> bool { (e: Entry) => Owed(e, members, current) }

  /** Every debit an assessment adds is one member's own fee for one of the owed months, in the
      member's referral balance. */
  lemma {:induction false} FeesOwned(members: seq<Member>, i: nat, es: seq<Entry>, current: nat)
    requires i <= |members| && AssessFrom(members, i, es, current).Some?
    ensures Extends(es, AssessFrom(members, i, es, current).value, OwedBy(members, current))
    decreases |members| - i
  {
    if i < |members| {
      var m := members[i];
      if m.fee.Some? && m.fee.value.start <= current {
        var fee := m.fee.value;
        var next := AssessMonths(es, m.id, fee.monthlyCents, fee.start, current);
        forall e | FeeLine(e, m.id, fee.monthlyCents, fee.start, current) ensures OwedBy(members, current)(e) { assert members[i] == m; }
        MonthsOwned(es, m.id, fee.monthlyCents, fee.start, current, OwedBy(members, current));
        FeesOwned(members, i + 1, next, current);
        ExtendsTwice(es, next, AssessFrom(members, i, es, current).value, OwedBy(members, current));
      } else {
        FeesOwned(members, i + 1, es, current);
      }
    }
  }

  /** A fee that has begun and cannot be assessed: not positive, above $1,000,000, or ten years old. */
  predicate NeedsReview(m: Member, current: nat) {
    m.fee.Some? && m.fee.value.start <= current
    && (m.fee.value.monthlyCents <= 0 || m.fee.value.monthlyCents > 100_000_000 || current - m.fee.value.start >= 10 * 12)
  }

  /** An assessment is refused exactly when some member's fee needs review. */
  lemma {:induction false} RefusedForReview(members: seq<Member>, i: nat, es: seq<Entry>, current: nat)
    requires i <= |members|
    ensures AssessFrom(members, i, es, current).None? <==> exists k :: i <= k < |members| && NeedsReview(members[k], current)
    decreases |members| - i
  {
    if i < |members| {
      var m := members[i];
      var next := if m.fee.Some? && m.fee.value.start <= current
                  then AssessMonths(es, m.id, m.fee.value.monthlyCents, m.fee.value.start, current) else es;
      RefusedForReview(members, i + 1, next, current);
    }
  }

  // ---------------------------------------------------------------- YYYY-MM

  function Digit(d: nat): char
    requires d < 10
  {
    "0123456789"[d]
  }

  function DigitValue(c: char): nat { if '0' <= c <= '9' then c as int - '0' as int else 0 }

  predicate FourDigitYear(i: nat) { 1000 <= i / 12 <= 9999 }

  /** The program's month string of a month index (year * 12 + month - 1). */
  function Render(i: nat): (s: string)
    requires FourDigitYear(i)
    ensures |s| == 7
  {
    var y, m := i / 12, i % 12 + 1;
    [Digit(y / 10 / 10 / 10), Digit(y / 10 / 10 % 10), Digit(y / 10 % 10), Digit(y % 10), '-', Digit(m / 10), Digit(m % 10)]
  }

  function Parse(s: string): int
    requires |s| == 7
  {
    (DigitValue(s[0]) * 1000 + DigitValue(s[1]) * 100 + DigitValue(s[2]) * 10 + DigitValue(s[3])) * 12
    + DigitValue(s[5]) * 10 + DigitValue(s[6]) - 1
  }

  /** String comparison, code unit by code unit. */
  predicate StringLess(a: string, b: string) {
    if a == [] || b == [] then a == [] && b != []
    else if a[0] != b[0] then a[0] < b[0]
    else StringLess(a[1..], b[1..])
  }

  lemma {:induction false} DigitRoundTrip(d: nat)
    requires d < 10
    ensures DigitValue(Digit(d)) == d && '0' <= Digit(d) <= '9'
  {
  }

  /** Seven characters, all digits but for the dash, with a month from 01 to 12. */
  predicate MonthShaped(s: string) {
    && |s| == 7 && '0' <= s[0] <= '9' && '0' <= s[1] <= '9' && '0' <= s[2] <= '9' && '0' <= s[3] <= '9'
    && s[4] == '-' && '0' <= s[5] <= '9' && '0' <= s[6] <= '9'
    && 1 <= DigitValue(s[5]) * 10 + DigitValue(s[6]) <= 12
  }

  /** The month-index conversion is undone by reading the string back. */
  lemma {:induction false} ParseRender(i: nat)
    requires FourDigitYear(i)
    ensures MonthShaped(Render(i)) && Parse(Render(i)) == i
  {
    var y, m := i / 12, i % 12 + 1;
    DigitRoundTrip(y / 10 / 10 / 10);
    DigitRoundTrip(y / 10 / 10 % 10);
    DigitRoundTrip(y / 10 % 10);
    DigitRoundTrip(y % 10);
    DigitRoundTrip(m / 10);
    DigitRoundTrip(m % 10);
    FourDigits(y);
  }

  lemma {:induction false} FourDigits(y: nat)
    requires y <= 9999
    ensures y == y / 10 / 10 / 10 * 1000 + y / 10 / 10 % 10 * 100 + y / 10 % 10 * 10 + y % 10
    ensures y / 10 / 10 / 10 < 10
  {
    var h := y / 10;
    var k := h / 10;
    assert y == h * 10 + y % 10 && h == k * 10 + h % 10 && k == k / 10 * 10 + k % 10;
  }

  /** The first place where two strings of one length differ decides. */
  lemma {:induction false} LessAt(a: string, b: string, k: nat)
    requires |a| == |b| && k < |a| && a[..k] == b[..k] && a[k] != b[k]
    ensures StringLess(a, b) <==> a[k] < b[k]
  {
    if k > 0 {
      assert a[..k][0] == b[..k][0];
      assert a[1..][..k - 1] == a[..k][1..] && b[1..][..k - 1] == b[..k][1..];
      LessAt(a[1..], b[1..], k - 1);
    }
  }

  lemma {:induction false} NotLessSelf(a: string)
    ensures !StringLess(a, a)
  {
    if a != [] {
      NotLessSelf(a[1..]);
    }
  }

  lemma {:induction false} ShapedOrder(a: string, b: string)
    requires MonthShaped(a) && MonthShaped(b)
    ensures StringLess(a, b) <==> Parse(a) < Parse(b)
  {
    if a == b {
      NotLessSelf(a);
    } else if a[0] != b[0] {
      LessAt(a, b, 0);
    } else if a[1] != b[1] {
      LessAt(a, b, 1);
    } else if a[2] != b[2] {
      LessAt(a, b, 2);
    } else if a[3] != b[3] {
      LessAt(a, b, 3);
    } else if a[5] != b[5] {
      LessAt(a, b, 5);
    } else {
      LessAt(a, b, 6);
    }
  }

  /** Comparing month strings compares months. */
  lemma {:induction false} StringOrderIsMonthOrder(i: nat, j: nat)
    requires FourDigitYear(i) && FourDigitYear(j)
    ensures StringLess(Render(i), Render(j)) <==> i < j
  {
    ParseRender(i);
    ParseRender(j);
    ShapedOrder(Render(i), Render(j));
  }
}
