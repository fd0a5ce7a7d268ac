/** What every transaction keeps: closed forms over job flags and row fields equal sums over
    the ledger, entries are well shaped, and every transaction but payout admission and
    settlement leaves that so. */
module BookInvariants {
  import opened Basics
  import opened Ledger
  import opened Book

  // ---------------------------------------------------------------- closed forms

  /** The cents a list of allocations posts in one program, as debits or as credits. */
  function Marks(allocations: seq<Share>, s: Source, debit: bool): seq<int> {
    if allocations == [] then [] else
      Join(Marks(allocations[..|allocations| - 1], s, debit), Mark(allocations[|allocations| - 1], s, debit))
  }

  function Mark(a: Share, s: Source, debit: bool): seq<int> {
    if a.source != s then [] else [if debit then -a.cents else a.cents]
  }

  /** The reservation, settlement and return entries of job j in program s are exactly
      the ones its flags call for. */
  ghost predicate Tagged(es: seq<Entry>, j: nat, s: Source, allocations: seq<Share>,
                         released: bool, paid: bool, returned: bool) {
    && Cents(es, HoldOf(j, s)) == Marks(allocations, s, true)
    && Cents(es, ReleaseOf(j, s)) == (if released then Marks(allocations, s, false) else [])
    && Cents(es, PayoutOf(j, s)) == (if paid then Marks(allocations, s, true) else [])
    && Cents(es, ReturnOf(j, s)) == (if paid && returned then Marks(allocations, s, false) else [])
  }

  ghost predicate JobTagged(es: seq<Entry>, jobs: seq<Job>, j: nat, s: Source) {
    if j < |jobs|
    then Tagged(es, j, s, jobs[j].allocations, jobs[j].released, jobs[j].paid, jobs[j].returned)
    else Tagged(es, j, s, [], false, false, false)
  }

  ghost predicate TagsOk(es: seq<Entry>, jobs: seq<Job>) {
    forall j: nat, s: Source :: JobTagged(es, jobs, j, s)
  }

  function ReservedBy(owner: string): Measure {
    (e: Entry) => if e.owner == owner && e.kind in {Hold, Release} then e.cents else 0
  }

  function StripePaidBy(owner: string): Measure {
    (e: Entry) => if e.owner == owner && e.byStripe && e.kind in {Payout, Reversal} then e.cents else 0
  }

  function SumJobs(jobs: seq<Job>, f: Job -> int): int {
    if jobs == [] then 0 else SumJobs(jobs[..|jobs| - 1], f) + f(jobs[|jobs| - 1])
  }

  function UnreleasedOf(owner: string): Job -> int {
    (job: Job) => if job.owner == owner && !job.released then job.amount else 0
  }

  function PaidOutOf(owner: string): Job -> int {
    (job: Job) => if job.owner == owner && job.paid && !job.returned then job.amount else 0
  }

  ghost predicate OwnerOk(es: seq<Entry>, jobs: seq<Job>, owner: string) {
    && Sum(es, ReservedBy(owner)) == -SumJobs(jobs, UnreleasedOf(owner))
    && Sum(es, StripePaidBy(owner)) == -SumJobs(jobs, PaidOutOf(owner))
  }

  ghost predicate OwnersOk(es: seq<Entry>, jobs: seq<Job>) {
    forall owner: string :: OwnerOk(es, jobs, owner)
  }

  function RowCents(id: string): Measure {
    (e: Entry) => if e.reference in {InvoiceOf(id), CheckoutOf(id), AdjustOf(id), RateOf(id)} then e.cents else 0
  }

  predicate RowOk(row: Row) {
    && 0 < row.paid && row.basis <= row.paid && row.rate <= 100
    && row.commission == CommissionAt(row.basis, row.rate)
  }

  ghost predicate RowTracked(es: seq<Entry>, rows: map<string, Row>, id: string) {
    if id in rows
    then RowOk(rows[id]) && Sum(es, RowCents(id)) == Net(rows[id])
    else Sum(es, RowCents(id)) == 0
  }

  ghost predicate RowsOk(es: seq<Entry>, rows: map<string, Row>) {
    forall id: string :: RowTracked(es, rows, id)
  }

  predicate DistinctSources(ts: seq<Share>) {
    forall i, k | 0 <= i < k < |ts| :: ts[i].source != ts[k].source
  }

  predicate JobOk(job: Job) {
    && job.amount == ShareTotal(job.allocations) && job.amount >= 1
    && (forall i | 0 <= i < |job.allocations| :: job.allocations[i].cents > 0)
    && DistinctSources(job.allocations)
    && (job.paid || job.returned ==> job.released)
    && (Closing(job.status) ==> job.released)
    && (job.released && !job.paid ==> Closing(job.status))
    && (job.status == Returned ==> job.returned) && (job.returned ==> Closing(job.status))
    && (job.paid && Closing(job.status) ==> job.returned)
    && !job.conflict
  }

  function Slot(jobs: seq<Job>, j: nat): (string, nat)
    requires j < |jobs|
  {
    (jobs[j].owner, jobs[j].cycle)
  }

  /** At most one job for a member and cycle. */
  predicate OneJobEach(jobs: seq<Job>) {
    forall j: nat, k: nat | j < k < |jobs| :: Slot(jobs, j) != Slot(jobs, k)
  }

  predicate JobsOk(jobs: seq<Job>) {
    (forall j | 0 <= j < |jobs| :: JobOk(jobs[j])) && OneJobEach(jobs)
  }

  lemma {:induction false} SameSlots(was: seq<Job>, jobs: seq<Job>)
    requires OneJobEach(was) && |jobs| == |was|
    requires forall j | 0 <= j < |was| :: jobs[j].owner == was[j].owner && jobs[j].cycle == was[j].cycle
    ensures OneJobEach(jobs)
  {
    forall j: nat, k: nat | j < k < |jobs|
      ensures Slot(jobs, j) != Slot(jobs, k)
    {
      assert Slot(was, j) != Slot(was, k);
    }
  }


  /** The shape of the entry at position i: identifiers are positions, a reversal names an
      earlier entry of the same owner and program and of the same writer. */
  predicate EntryOk(es: seq<Entry>, i: nat)
    requires i < |es|
  {
    var e := es[i];
    && e.id == i
    && (e.kind == Reversal <==> e.reverses.Some?)
    && (e.kind in {Hold, Release} ==> e.byStripe)
    && (e.reference.PayoutOf? ==> e.kind == Payout && e.byStripe)
    && (e.reference.Manual? ==> !e.byStripe)
    && (e.reverses.Some? ==>
          var k := e.reverses.value;
          k < i && es[k].owner == e.owner && es[k].source == e.source && es[k].byStripe == e.byStripe && es[k].cents == -e.cents
          && (if e.byStripe then es[k].kind == Payout else es[k].kind in {Earning, Adjustment, Payout}))
  }

  predicate ShapeOk(es: seq<Entry>) {
    forall i | 0 <= i < |es| :: EntryOk(es, i)
  }

  /** Entries carrying a payout reference belong to that job's owner and program. */
  predicate PayoutsOwned(es: seq<Entry>, jobs: seq<Job>) {
    forall i | 0 <= i < |es| && es[i].reference.PayoutOf? ::
      var r := es[i].reference;
      r.job < |jobs| && es[i].owner == jobs[r.job].owner && es[i].source == r.source
  }

  /** No two operator entries reverse the same entry, and one operator reference is used
      at most once per kind. */
  predicate OperatorOk(es: seq<Entry>) {
    && (forall i, k | 0 <= i < k < |es| && !es[i].byStripe && !es[k].byStripe && es[i].reverses.Some? ::
          es[i].reverses != es[k].reverses)
    && (forall i, k | 0 <= i < k < |es| && es[i].reference.Manual? && es[i].reference == es[k].reference ::
          es[i].kind != es[k].kind)
  }

  ghost predicate Valid(b: Book) {
    && TagsOk(b.entries, b.jobs)
    && OwnersOk(b.entries, b.jobs)
    && RowsOk(b.entries, b.rows)
    && JobsOk(b.jobs)
    && ShapeOk(b.entries)
    && PayoutsOwned(b.entries, b.jobs)
    && OperatorOk(b.entries)
  }

  // ---------------------------------------------------------------- appending one entry

  lemma {:induction false} SumPush(es: seq<Entry>, e: Entry, f: Measure)
    ensures Sum(es + [e], f) == Sum(es, f) + f(e)
  {
    SumAppend(es, [e], f);
    SumOne(e, f);
  }

  lemma {:induction false} CentsPush(es: seq<Entry>, e: Entry, r: Reference)
    ensures Cents(es + [e], r) == if e.reference == r then Join(Cents(es, r), [e.cents]) else Cents(es, r)
  {
    assert (es + [e])[..|es|] == es;
  }

  predicate IsPayoutTag(r: Reference) { r.HoldOf? || r.ReleaseOf? || r.PayoutOf? || r.ReturnOf? }

  /** An entry no payout job accounts for. */
  predicate OutsidePayouts(e: Entry) {
    !IsPayoutTag(e.reference) && e.kind !in {Hold, Release} && (e.byStripe ==> e.kind !in {Payout, Reversal})
  }

  lemma {:induction false} OutsideKeepsPayouts(es: seq<Entry>, e: Entry, jobs: seq<Job>)
    requires TagsOk(es, jobs) && OwnersOk(es, jobs) && PayoutsOwned(es, jobs)
    requires OutsidePayouts(e)
    ensures TagsOk(es + [e], jobs) && OwnersOk(es + [e], jobs) && PayoutsOwned(es + [e], jobs)
  {
    forall j: nat, s: Source
      ensures JobTagged(es + [e], jobs, j, s)
    {
      assert JobTagged(es, jobs, j, s);
      CentsPush(es, e, HoldOf(j, s));
      CentsPush(es, e, ReleaseOf(j, s));
      CentsPush(es, e, PayoutOf(j, s));
      CentsPush(es, e, ReturnOf(j, s));
    }
    forall owner: string
      ensures OwnerOk(es + [e], jobs, owner)
    {
      assert OwnerOk(es, jobs, owner);
      SumPush(es, e, ReservedBy(owner));
      SumPush(es, e, StripePaidBy(owner));
    }
  }

  predicate IsRowTag(r: Reference) { r.InvoiceOf? || r.CheckoutOf? || r.AdjustOf? || r.RateOf? }

  lemma {:induction false} OutsideKeepsRows(es: seq<Entry>, e: Entry, rows: map<string, Row>)
    requires RowsOk(es, rows) && !IsRowTag(e.reference)
    ensures RowsOk(es + [e], rows)
  {
    forall id: string
      ensures RowTracked(es + [e], rows, id)
    {
      assert RowTracked(es, rows, id);
      SumPush(es, e, RowCents(id));
    }
  }

  predicate IsOperatorReference(r: Reference) { r.Manual? || r.HostingFee? || r.Rebate? || r.ReversalOf? }

  /** An operator, hosting or rebate entry keeps every invariant. */
  lemma {:induction false} OperatorAppend(b: Book, e: Entry)
    requires Valid(b)
    requires e.id == |b.entries| && !e.byStripe && e.kind !in {Hold, Release} && IsOperatorReference(e.reference)
    requires EntryOk(b.entries + [e], |b.entries|)
    requires e.reverses.Some? ==> !AlreadyReversed(b.entries, e.reverses.value)
    requires e.reference.Manual? ==> FindManual(b.entries, e.reference.text, e.kind).None?
    ensures Valid(b.(entries := b.entries + [e]))
  {
    var es := b.entries;
    OutsideKeepsPayouts(es, e, b.jobs);
    OutsideKeepsRows(es, e, b.rows);
    forall i | 0 <= i < |es + [e]|
      ensures EntryOk(es + [e], i)
    {
      if i < |es| {
        assert EntryOk(es, i);
      }
    }
  }

  // ---------------------------------------------------------------- operator transactions

  lemma {:induction false} RecordKeepsValid(b: Book, owner: string, source: Source, kind: Kind, amount: int,
                                            period: nat, text: string, note: string)
    requires Valid(b)
    ensures var r := Record(b, owner, source, kind, amount, period, text, note);
            r.Appended? ==> Valid(r.book) && r.book.jobs == b.jobs && r.book.rows == b.rows
  {
    var r := Record(b, owner, source, kind, amount, period, text, note);
    if r.Appended? {
      OperatorAppend(b, r.book.entries[|b.entries|]);
    }
  }

  predicate SameUse(e: Entry, text: string, kind: Kind) { e.reference == Manual(text) && e.kind == kind }

  /** What an operator may record: for a known member, an earning, an adjustment or a payout of
      at most $1,000,000, positive unless it is an adjustment, and never zero. */
  predicate MayRecord(members: seq<Member>, owner: string, kind: Kind, amount: int) {
    && (exists i :: 0 <= i < |members| && members[i].id == owner)
    && kind != Reversal && kind != Hold && kind != Release
    && (0 < amount <= 100_000_000 || (kind == Adjustment && -100_000_000 <= amount < 0))
  }

  /** A reference is used once per kind: the same entry again is the same settlement, any
      other use is refused, and a payout never exceeds the balance it is paid from. What is
      appended changes that owner's balance in that program and no other. */
  lemma {:induction false} RecordExact(b: Book, owner: string, source: Source, kind: Kind, amount: int, period: nat,
                                       text: string, note: string)
    requires Valid(b)
    ensures var cents := if kind == Payout then -amount else amount;
            var e := Entry(|b.entries|, owner, source, kind, cents, period, Manual(text), note, false, None);
            var used := exists k :: 0 <= k < |b.entries| && SameUse(b.entries[k], text, kind);
            var covered := kind == Payout ==> amount <= Balance(b.entries, owner, source);
            match Record(b, owner, source, kind, amount, period, text, note)
            case Appended(after) =>
              && MayRecord(b.members, owner, kind, amount) && !used && covered && after == b.(entries := b.entries + [e])
              && Balance(after.entries, owner, source) == Balance(b.entries, owner, source) + cents
              && (kind == Payout ==> Balance(after.entries, owner, source) >= 0)
            case Existing(at) => MayRecord(b.members, owner, kind, amount) && at < |b.entries| && b.entries[at] == e.(id := at)
            case Refused =>
              || !MayRecord(b.members, owner, kind, amount) || (!used && !covered)
              || (used && forall k | 0 <= k < |b.entries| :: b.entries[k] != e.(id := k))
  {
    MayRecordIsAcceptable(b.members, owner, kind, amount);
    RecordMeans(b, owner, source, kind, amount, period, text, note);
  }

  lemma {:induction false} RecordMeans(b: Book, owner: string, source: Source, kind: Kind, amount: int, period: nat,
                                       text: string, note: string)
    requires OperatorOk(b.entries) && ShapeOk(b.entries)
    ensures var cents := if kind == Payout then -amount else amount;
            var e := Entry(|b.entries|, owner, source, kind, cents, period, Manual(text), note, false, None);
            var used := exists k :: 0 <= k < |b.entries| && SameUse(b.entries[k], text, kind);
            var covered := kind == Payout ==> amount <= Balance(b.entries, owner, source);
            match Record(b, owner, source, kind, amount, period, text, note)
            case Appended(after) =>
              && Acceptable(b.members, owner, kind, amount) && !used && covered && after == b.(entries := b.entries + [e])
              && Balance(after.entries, owner, source) == Balance(b.entries, owner, source) + cents
              && (kind == Payout ==> Balance(after.entries, owner, source) >= 0)
            case Existing(at) => Acceptable(b.members, owner, kind, amount) && at < |b.entries| && b.entries[at] == e.(id := at)
            case Refused =>
              || !Acceptable(b.members, owner, kind, amount) || (!used && !covered)
              || (used && forall k | 0 <= k < |b.entries| :: b.entries[k] != e.(id := k))
  {
    var e := OperatorEntry(|b.entries|, owner, source, kind, amount, period, text, note);
    SumPush(b.entries, e, BalanceOf(owner, source));
    FindsTheUse(b.entries, e, text, kind);
  }

  lemma {:induction false} MayRecordIsAcceptable(members: seq<Member>, owner: string, kind: Kind, amount: int)
    ensures Acceptable(members, owner, kind, amount) <==> MayRecord(members, owner, kind, amount)
  {
  }

  /** The entry found under a reference is the only one that can be the same settlement. */
  lemma {:induction false} FindsTheUse(es: seq<Entry>, e: Entry, text: string, kind: Kind)
    requires OperatorOk(es) && ShapeOk(es) && SameUse(e, text, kind)
    ensures var prior := FindManual(es, text, kind);
            if prior.None? then forall k | 0 <= k < |es| :: !SameUse(es[k], text, kind)
            else
              && prior.value < |es| && SameUse(es[prior.value], text, kind)
              && (es[prior.value].(id := e.id) == e ==> es[prior.value] == e.(id := prior.value))
              && (es[prior.value].(id := e.id) != e ==> forall k | 0 <= k < |es| :: es[k] != e.(id := k))
  {
    var prior := FindManual(es, text, kind);
    if prior.Some? {
      assert EntryOk(es, prior.value) && SameUse(es[prior.value], text, kind);
      forall k | 0 <= k < |es| && es[k] == e.(id := k)
        ensures k == prior.value
      {
        UsedOnce(es, k, prior.value, text, kind);
      }
    }
  }

  lemma {:induction false} UsedOnce(es: seq<Entry>, i: nat, k: nat, text: string, kind: Kind)
    requires OperatorOk(es) && i < |es| && k < |es| && SameUse(es[i], text, kind) && SameUse(es[k], text, kind)
    ensures i == k
  {
  }

  lemma {:induction false} ReverseKeepsValid(b: Book, id: nat, note: string)
    requires Valid(b)
    ensures var r := Reverse(b, id, note);
            r.Appended? ==> Valid(r.book) && r.book.jobs == b.jobs && r.book.rows == b.rows
  {
    var r := Reverse(b, id, note);
    if r.Appended? {
      assert EntryOk(b.entries, id);
      OperatorAppend(b, r.book.entries[|b.entries|]);
    }
  }

  /** A reversal takes an operator's entry back in every balance, and a second one of the
      same entry is refused. */
  lemma {:induction false} ReverseExact(b: Book, id: nat, note: string, again: string)
    requires Valid(b)
    ensures var r := Reverse(b, id, note);
            && (r.Appended? <==> id < |b.entries| && !b.entries[id].byStripe
                                 && b.entries[id].kind in {Earning, Adjustment, Payout}
                                 && forall e | e in b.entries :: e.reverses != Some(id))
            && (r.Appended? ==>
                  && |r.book.entries| == |b.entries| + 1
                  && r.book == b.(entries := b.entries + [r.book.entries[|b.entries|]])
                  && var was, e := b.entries[id], r.book.entries[|b.entries|];
                     e.kind == Reversal && e.reverses == Some(id) && e.cents == -was.cents && e.period == was.period && e.note == note)
            && (r.Appended? ==> Reverse(r.book, id, again) == Refused)
            && (r.Appended? ==> forall owner, source ::
                  Balance(r.book.entries, owner, source)
                  == Balance(b.entries, owner, source) - BalanceOf(owner, source)(b.entries[id]))
  {
    var r := Reverse(b, id, note);
    if r.Appended? {
      var e := r.book.entries[|b.entries|];
      assert e in r.book.entries && e.reverses == Some(id);
      forall owner, source
        ensures Balance(r.book.entries, owner, source)
             == Balance(b.entries, owner, source) - BalanceOf(owner, source)(b.entries[id])
      {
        SumPush(b.entries, e, BalanceOf(owner, source));
      }
    }
  }

  lemma {:induction false} AssessMonthsKeepsValid(b: Book, m: string, amount: int, at: nat, to: int)
    requires Valid(b)
    ensures Valid(b.(entries := AssessMonths(b.entries, m, amount, at, to)))
    decreases if at <= to then to - at + 1 else 0
  {
    if at <= to {
      OperatorAppend(b, FeeEntry(|b.entries|, m, amount, at));
      AssessMonthsKeepsValid(b.(entries := AssessMonth(b.entries, m, amount, at)), m, amount, at + 1, to);
    }
  }

  lemma {:induction false} AssessFromKeepsValid(b: Book, members: seq<Member>, i: nat, current: nat)
    requires Valid(b)
    ensures var es := AssessFrom(members, i, b.entries, current);
            es.Some? ==> Valid(b.(entries := es.value))
    decreases |members| - i
  {
    if i < |members| {
      if members[i].fee.Some? && members[i].fee.value.start <= current {
        var fee := members[i].fee.value;
        AssessMonthsKeepsValid(b, members[i].id, fee.monthlyCents, fee.start, current);
        var es := AssessMonths(b.entries, members[i].id, fee.monthlyCents, fee.start, current);
        AssessFromKeepsValid(b.(entries := es), members, i + 1, current);
      } else {
        AssessFromKeepsValid(b, members, i + 1, current);
      }
    }
  }

  // ---------------------------------------------------------------- commission rows

  lemma {:induction false} ClawedBackBounds(commission: nat, refunded: nat, paid: nat, disputed: bool)
    requires paid > 0
    ensures commission * Min(refunded, paid) / paid <= commission
    ensures 0 <= ClawedBack(commission, refunded, paid, disputed) <= commission
  {
    var m := Min(refunded, paid);
    DivideBound(commission, m, paid);
  }

  lemma {:induction false} Scale(x: int, y: int, p: nat)
    requires x <= y
    ensures x * p <= y * p
  {
    if p > 0 {
      Scale(x, y, p - 1);
    }
  }

  lemma {:induction false} DivideBound(c: nat, m: nat, p: nat)
    requires p > 0 && m <= p
    ensures 0 <= c * m / p <= c
  {
    Scale(m, p, c);
    var q := m * c / p;
    if q > c {
      Scale(c + 1, q, p);
    }
  }

  lemma {:induction false} CommissionBound(basis: nat, rate: nat)
    requires rate <= 100
    ensures CommissionAt(basis, rate) <= basis
  {
    DivideBound(basis, rate, 100);
  }

  /** Replacing one row and appending one entry (or none) of that row. */
  lemma {:induction false} RowStep(b: Book, id: string, row: Row, es: seq<Entry>)
    requires Valid(b) && RowOk(row) && (id in b.rows ==> RowOk(b.rows[id]))
    requires es == [] || (|es| == 1 && es[0].id == |b.entries| && es[0].byStripe
                          && es[0].reference in {InvoiceOf(id), CheckoutOf(id), AdjustOf(id), RateOf(id)}
                          && es[0].kind in {Earning, Adjustment} && es[0].reverses.None?)
    requires (if id in b.rows then Net(b.rows[id]) else 0) + (if es == [] then 0 else es[0].cents) == Net(row)
    ensures Valid(b.(rows := b.rows[id := row], entries := b.entries + es))
  {
    if es == [] {
      assert b.entries + es == b.entries;
    } else {
      assert es == [es[0]];
      OutsideKeepsPayouts(b.entries, es[0], b.jobs);
      ShapePush(b.entries, es[0]);
    }
    RowSums(b.entries, b.rows, id, row, es);
  }

  lemma {:induction false} ShapePush(es: seq<Entry>, e: Entry)
    requires ShapeOk(es) && EntryOk(es + [e], |es|)
    ensures ShapeOk(es + [e])
  {
    var all := es + [e];
    forall i | 0 <= i < |all|
      ensures EntryOk(all, i)
    {
      if i < |es| {
        assert EntryOk(es, i);
      }
    }
  }

  lemma {:induction false} RowSums(es: seq<Entry>, rows: map<string, Row>, id: string, row: Row, more: seq<Entry>)
    requires RowsOk(es, rows) && RowOk(row) && (id in rows ==> RowOk(rows[id]))
    requires more == [] || (|more| == 1 && more[0].reference in {InvoiceOf(id), CheckoutOf(id), AdjustOf(id), RateOf(id)})
    requires (if id in rows then Net(rows[id]) else 0) + (if more == [] then 0 else more[0].cents) == Net(row)
    ensures RowsOk(es + more, rows[id := row])
  {
    var all, after := es + more, rows[id := row];
    forall other: string
      ensures RowTracked(all, after, other)
    {
      assert RowTracked(es, rows, other);
      SumAppend(es, more, RowCents(other));
      if more != [] {
        SumOne(more[0], RowCents(other));
      }
    }
  }

  lemma {:induction false} AdmitRowKeepsValid(b: Book, id: string, checkout: bool, owner: string, paid: nat,
                                              basis: nat, rate: nat, period: nat)
    requires Valid(b) && 0 < paid && basis <= paid && rate <= 100
    ensures Valid(AdmitRow(b, id, checkout, owner, paid, basis, rate, period))
  {
    if id !in b.rows {
      var commission := CommissionAt(basis, rate);
      var row := Row(owner, paid, basis, commission, rate, period, 0, false);
      assert commission * 0 / paid == 0;
      var first := if checkout then CheckoutOf(id) else InvoiceOf(id);
      RowStep(b, id, row, if commission == 0 then [] else [RowEntry(|b.entries|, row, Earning, commission, first)]);
    }
  }

  lemma {:induction false} RowFacts(b: Book, id: string)
    requires Valid(b) && id in b.rows
    ensures RowOk(b.rows[id]) && Sum(b.entries, RowCents(id)) == Net(b.rows[id])
  {
    assert RowTracked(b.entries, b.rows, id);
  }

  /** New facts for a row, and an entry of the difference. */
  lemma {:induction false} DeltaStep(b: Book, id: string, after: Row, r: Reference)
    requires Valid(b) && id in b.rows && RowOk(after) && r in {AdjustOf(id), RateOf(id)}
    ensures b.rows[id].paid > 0
    ensures var delta := Net(after) - Net(b.rows[id]);
            var es := if delta == 0 then [] else [RowEntry(|b.entries|, b.rows[id], Adjustment, delta, r)];
            Valid(b.(rows := b.rows[id := after], entries := b.entries + es))
  {
    RowFacts(b, id);
    var delta := Net(after) - Net(b.rows[id]);
    RowStep(b, id, after, if delta == 0 then [] else [RowEntry(|b.entries|, b.rows[id], Adjustment, delta, r)]);
  }

  lemma {:induction false} AdjustRowKeepsValid(b: Book, id: string, refunded: nat, disputed: bool)
    requires Valid(b) && id in b.rows
    ensures b.rows[id].paid > 0
    ensures Valid(AdjustRow(b, id, b.rows[id].commission, b.rows[id].paid, refunded, disputed))
  {
    RowFacts(b, id);
    DeltaStep(b, id, b.rows[id].(refunded := refunded, disputed := disputed), AdjustOf(id));
  }

  lemma {:induction false} CorrectRateKeepsValid(b: Book, id: string, owner: string, rate: nat)
    requires Valid(b) && rate <= 100
    ensures id in b.rows ==> b.rows[id].paid > 0
    ensures var r := CorrectRate(b, id, owner, rate);
            r.Some? ==> Valid(r.value)
  {
    if id in b.rows {
      RowFacts(b, id);
      if b.rows[id].owner == owner && b.rows[id].rate != rate {
        var row := b.rows[id];
        DeltaStep(b, id, row.(rate := rate, commission := CommissionAt(row.basis, rate)), RateOf(id));
      }
    }
  }

  /** A row at this rate: its commission is the floor of the basis' share, and its entries
      sum to what is left of it after refunds. */
  ghost predicate CorrectedTo(row: Row, rate: nat, es: seq<Entry>, id: string) {
    && row.paid > 0 && row.rate == rate && row.commission * 100 <= row.basis * rate < (row.commission + 1) * 100
    && Sum(es, RowCents(id)) == Net(row)
  }

  lemma {:induction false} CorrectRateExact(b: Book, id: string, owner: string, rate: nat)
    requires Valid(b) && rate <= 100
    ensures id in b.rows ==> b.rows[id].paid > 0
    ensures var r := CorrectRate(b, id, owner, rate);
            && (r.Some? <==> (id in b.rows ==> b.rows[id].owner == owner))
            && (r.Some? && id !in b.rows ==> r.value == b)
            && (r.Some? && id in b.rows ==>
                  && id in r.value.rows && r.value.rows == b.rows[id := r.value.rows[id]]
                  && CorrectedTo(r.value.rows[id], rate, r.value.entries, id))
  {
    if id in b.rows {
      RowFacts(b, id);
      CorrectRateKeepsValid(b, id, owner, rate);
      var r := CorrectRate(b, id, owner, rate);
      if r.Some? {
        RowFacts(r.value, id);
      }
    }
  }

  /** The adjustment is computed from what the row held when the provider was asked. It
      keeps the ledger's closed forms exactly when those stale values claw back the same
      cents as the row would now, so the serial queue between question and answer is what
      they rest on. */
  lemma {:induction false} StaleAdjustment(b: Book, id: string, commission: nat, paid: nat, refunded: nat,
                                           disputed: bool)
    requires Valid(b) && id in b.rows && b.rows[id].paid > 0 && paid > 0
    ensures var row := b.rows[id];
            var after := AdjustRow(b, id, commission, paid, refunded, disputed);
            && (Valid(after) <==> Sum(after.entries, RowCents(id)) == Net(after.rows[id]))
            && (Valid(after)
                <==> ClawedBack(commission, refunded, paid, disputed) == ClawedBack(row.commission, refunded, row.paid, disputed))
  {
    var row := b.rows[id];
    if ClawedBack(commission, refunded, paid, disputed) == ClawedBack(row.commission, refunded, row.paid, disputed) {
      AdjustRowKeepsValid(b, id, refunded, disputed);
      assert AdjustRow(b, id, commission, paid, refunded, disputed) == AdjustRow(b, id, row.commission, row.paid, refunded, disputed);
      RowFacts(AdjustRow(b, id, commission, paid, refunded, disputed), id);
    } else {
      StaleSum(b, id, commission, paid, refunded, disputed);
    }
  }

  lemma {:induction false} StaleSum(b: Book, id: string, commission: nat, paid: nat, refunded: nat, disputed: bool)
    requires Valid(b) && id in b.rows && b.rows[id].paid > 0 && paid > 0
    requires ClawedBack(commission, refunded, paid, disputed)
          != ClawedBack(b.rows[id].commission, refunded, b.rows[id].paid, disputed)
    ensures var after := AdjustRow(b, id, commission, paid, refunded, disputed);
            Sum(after.entries, RowCents(id)) != Net(after.rows[id]) && !RowTracked(after.entries, after.rows, id)
  {
    var row := b.rows[id];
    var after := AdjustRow(b, id, commission, paid, refunded, disputed);
    RowFacts(b, id);
    var delta := ClawedBack(row.commission, row.refunded, row.paid, row.disputed)
               - ClawedBack(commission, refunded, paid, disputed);
    AppendedRowCents(b.entries, row, delta, id);
    assert Sum(after.entries, RowCents(id)) == Net(row) + delta;
    assert Net(after.rows[id]) == row.commission - ClawedBack(row.commission, refunded, row.paid, disputed);
  }

  lemma {:induction false} AppendedRowCents(es: seq<Entry>, row: Row, delta: int, id: string)
    ensures Sum(es + (if delta == 0 then [] else [RowEntry(|es|, row, Adjustment, delta, AdjustOf(id))]), RowCents(id))
         == Sum(es, RowCents(id)) + delta
  {
    if delta == 0 {
      assert es + [] == es;
    } else {
      SumPush(es, RowEntry(|es|, row, Adjustment, delta, AdjustOf(id)), RowCents(id));
    }
  }
}
