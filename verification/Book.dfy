/** The durable state of one payment rail: members, ledger, payout jobs and commission
    rows, with the value every ledger transaction of src/earn.ts and src/earn-stripe.ts
    computes. The methods of `EarnStore` are proved against these functions. */
module Book {
  import opened Basics
  import opened Ledger

  datatype Status =
    | Submitting | NeedsReview | Processing | Posted | Failed | Canceled | Returned | Unrecognised

  datatype Share = Share(source: Source, cents: int)

  /** A payout job. Its identifier is its position in the list of jobs. */
  datatype Job = Job(
    owner: string, cycle: nat, recipient: string, account: string, amount: int,
    allocations: seq<Share>, status: Status, created: nat, stripeId: Option<nat>,
    error: Option<string>, released: bool, paid: bool, returned: bool, checked: nat, conflict: bool)

  /** An invoice or Checkout row. */
  datatype Row = Row(
    owner: string, paid: nat, basis: nat, commission: nat, rate: nat, period: nat,
    refunded: nat, disputed: bool)

  datatype Fee = Fee(monthlyCents: int, start: nat)
  datatype Member = Member(id: string, fee: Option<Fee>)

  datatype Book = Book(members: seq<Member>, entries: seq<Entry>, jobs: seq<Job>, rows: map<string, Row>)

  // ---------------------------------------------------------------- payout postings

  /** What a payout transaction posts for one allocation. */
  datatype Posting = Reserve | Settle | Restore | Undo(originals: map<Source, nat>)

  /** The entries one posting appends for one allocation, the first at position `at`. */
  function Lines(at: nat, j: nat, job: Job, p: Posting, a: Share): seq<Entry> {
    match p
    case Reserve => [StripeEntry(at, job, a.source, Hold, -a.cents, HoldOf(j, a.source), None)]
    case Settle =>
      [StripeEntry(at, job, a.source, Release, a.cents, ReleaseOf(j, a.source), None),
       StripeEntry(at + 1, job, a.source, Payout, -a.cents, PayoutOf(j, a.source), None)]
    case Restore => [StripeEntry(at, job, a.source, Release, a.cents, ReleaseOf(j, a.source), None)]
    case Undo(originals) =>
      [StripeEntry(at, job, a.source, Reversal, a.cents, ReturnOf(j, a.source),
                   Some(if a.source in originals then originals[a.source] else 0))]
  }

  function StripeEntry(at: nat, job: Job, source: Source, kind: Kind, cents: int, r: Reference,
                       reverses: Option<nat>): Entry {
    Entry(at, job.owner, source, kind, cents, job.cycle, r, "", true, reverses)
  }

  /** One posting over a list of allocations, in order. */
  function Postings(at: nat, j: nat, job: Job, p: Posting, allocations: seq<Share>): seq<Entry> {
    if allocations == [] then [] else
      var n := |allocations| - 1;
      var front := Postings(at, j, job, p, allocations[..n]);
      front + Lines(at + |front|, j, job, p, allocations[n])
  }

  /** Where each allocation's payout entry stands; None when one is missing. */
  function Originals(es: seq<Entry>, j: nat, allocations: seq<Share>): Option<map<Source, nat>> {
    if allocations == [] then Some(map[]) else
      var n := |allocations| - 1;
      var front := Originals(es, j, allocations[..n]);
      var at := FindReference(es, PayoutOf(j, allocations[n].source));
      if front.None? || at.None? then None
      else Some(front.value[allocations[n].source := at.value])
  }

  datatype Settlement = Settled(book: Book, changed: bool) | MissingOriginal

  predicate Recognised(s: Status) { s in {Processing, Posted, Failed, Canceled, Returned} }
  predicate Closing(s: Status) { s in {Failed, Canceled, Returned} }

  predicate Settleable(job: Job, status: Status) {
    Recognised(status) && !job.conflict && !job.returned && job.status !in {Failed, Canceled}
  }

  /** The posting a provider status causes for a job, if any. */
  function SettlePosting(es: seq<Entry>, j: nat, job: Job, status: Status): Option<Posting>
    requires Settleable(job, status)
    requires Closing(status) && job.paid ==> Originals(es, j, job.allocations).Some?
  {
    if status == Posted && !job.paid then Some(Settle)
    else if !Closing(status) then None
    else if job.paid then Some(Undo(Originals(es, j, job.allocations).value))
    else if !job.released then Some(Restore)
    else None
  }

  function SettledJob(job: Job, status: Status, at: nat): Job {
    job.(paid := job.paid || status == Posted,
         released := job.released || Closing(status) || (status == Posted && !job.paid),
         returned := if Closing(status) then job.paid || status == Returned else job.returned,
         status := status,
         checked := at,
         error := if status == Posted then None else job.error)
  }

  /** src/earn-stripe.ts settleInState. */
  function SettleInState(b: Book, j: nat, status: Status, at: nat): Settlement
    requires j < |b.jobs|
  {
    var job := b.jobs[j];
    if !Settleable(job, status) then Settled(b, false)
    else if Closing(status) && job.paid && Originals(b.entries, j, job.allocations).None? then MissingOriginal
    else
      var p := SettlePosting(b.entries, j, job, status);
      var after := SettledJob(job, status, at);
      var posted := if p.None? then [] else Postings(|b.entries|, j, job, p.value, job.allocations);
      Settled(b.(entries := b.entries + posted, jobs := b.jobs[j := after]), after != job)
  }

  // ---------------------------------------------------------------- payout admission

  function Conservative(owner: string, source: Source, cycle: nat): Measure {
    (e: Entry) =>
      if e.owner == owner && e.source == source
      then (if e.period < cycle then e.cents else Min(0, e.cents)) else 0
  }

  /** The conservative totals: earlier months in full, later money only when it is a debit. */
  function Totals(es: seq<Entry>, owner: string, cycle: nat): seq<Share> {
    [Share(Referral, Sum(es, Conservative(owner, Referral, cycle))),
     Share(Exchange, Sum(es, Conservative(owner, Exchange, cycle))),
     Share(Marketplace, Sum(es, Conservative(owner, Marketplace, cycle)))]
  }

  function ShareTotal(ts: seq<Share>): int {
    if ts == [] then 0 else ShareTotal(ts[..|ts| - 1]) + ts[|ts| - 1].cents
  }

  function Debt(ts: seq<Share>): nat {
    if ts == [] then 0 else Debt(ts[..|ts| - 1]) + Max(0, -ts[|ts| - 1].cents)
  }

  /** The allocations left when `debt` is taken greedily from the positive totals, in
      order, with the debt still unpaid. */
  function Offset(ts: seq<Share>, debt: nat): (r: (seq<Share>, nat)) {
    if ts == [] then ([], debt) else
      var t := ts[|ts| - 1];
      var (front, left) := Offset(ts[..|ts| - 1], debt);
      if t.cents <= 0 then (front, left) else
        var taken := Min(t.cents, left);
        (if t.cents > taken then front + [Share(t.source, t.cents - taken)] else front, left - taken)
  }

  function Allocations(es: seq<Entry>, owner: string, cycle: nat): seq<Share> {
    var ts := Totals(es, owner, cycle);
    Offset(ts, Debt(ts)).0
  }

  predicate HasJob(jobs: seq<Job>, owner: string, cycle: nat) {
    exists j :: 0 <= j < |jobs| && jobs[j].owner == owner && jobs[j].cycle == cycle
  }

  function NewJob(owner: string, cycle: nat, recipient: string, account: string, now: nat,
                  allocations: seq<Share>): Job {
    Job(owner, cycle, recipient, account, ShareTotal(allocations), allocations, Submitting, now,
        None, None, false, false, false, 0, false)
  }

  /** The admission transaction: reserve the owner's payable amount for one cycle. */
  function AdmitPayout(b: Book, owner: string, cycle: nat, recipient: string, account: string, now: nat): Book {
    var allocations := Allocations(b.entries, owner, cycle);
    if HasJob(b.jobs, owner, cycle) || ShareTotal(allocations) < 1 then b
    else
      var job := NewJob(owner, cycle, recipient, account, now, allocations);
      b.(jobs := b.jobs + [job],
         entries := b.entries + Postings(|b.entries|, |b.jobs|, job, Reserve, allocations))
  }

  // ---------------------------------------------------------------- commission rows

  /** `Math.floor(basis * rate / 100)`. */
  function CommissionAt(basis: nat, rate: nat): nat { basis * rate / 100 }

  /** The part of a commission that refunds or a dispute take back. */
  function ClawedBack(commission: nat, refunded: nat, paid: nat, disputed: bool): nat
    requires paid > 0
  {
    if disputed then commission else Min(commission, commission * Min(refunded, paid) / paid)
  }

  function Net(row: Row): int
    requires row.paid > 0
  {
    row.commission - ClawedBack(row.commission, row.refunded, row.paid, row.disputed)
  }

  function RowEntry(at: nat, row: Row, kind: Kind, cents: int, r: Reference): Entry {
    Entry(at, row.owner, Referral, kind, cents, row.period, r, "", true, None)
  }

  /** The amounts a proved purchase lets through: a recurring invoice, a hosted bundle's
      invoice, or a one-time Checkout. */
  datatype Purchase =
    | Recurring(paid: nat, taxes: seq<nat>, net: nat)
    | Bundle(paid: nat, taxes: seq<nat>, hosting: nat, software: nat)
    | Checkout(total: nat, tax: nat, subtotal: nat, discount: nat)

  function TaxTotal(taxes: seq<nat>): nat {
    if taxes == [] then 0 else TaxTotal(taxes[..|taxes| - 1]) + taxes[|taxes| - 1]
  }

  function PaidAmount(p: Purchase): nat { if p.Checkout? then p.total else p.paid }

  /** The part of the collected money that earns commission. */
  function Basis(p: Purchase): int {
    match p
    case Recurring(paid, taxes, net) => Min(net, Max(0, paid - TaxTotal(taxes)))
    case Bundle(paid, taxes, hosting, software) => Min(software, Max(0, paid - TaxTotal(taxes) - hosting))
    case Checkout(total, tax, subtotal, discount) => Min(subtotal - discount, total - tax)
  }

  predicate Admissible(p: Purchase) { PaidAmount(p) > 0 && Basis(p) > 0 }

  function TierPercent(active: nat): nat { if active <= 20 then 20 else if active <= 40 then 30 else 40 }

  /** The member's own rate, or the tier of the active subscribers. */
  function AdmissionRate(own: Option<nat>, active: nat): nat { if own.Some? then own.value else TierPercent(active) }

  /** The admission transaction of invoice() and checkoutPurchase(): `first` is the
      reference of the earning entry. */
  function AdmitRow(b: Book, id: string, checkout: bool, owner: string, paid: nat, basis: nat,
                    rate: nat, period: nat): Book
  {
    if id in b.rows then b else
      var row := Row(owner, paid, basis, CommissionAt(basis, rate), rate, period, 0, false);
      var first := if checkout then CheckoutOf(id) else InvoiceOf(id);
      b.(rows := b.rows[id := row],
         entries := b.entries + (if row.commission == 0 then [] else
           [RowEntry(|b.entries|, row, Earning, row.commission, first)]))
  }

  /** The transaction of adjustInvoice(). `commission` and `paid` are what the row held
      when the provider was asked; the difference is posted against the row as it is now. */
  function AdjustRow(b: Book, id: string, commission: nat, paid: nat, refunded: nat, disputed: bool): Book
    requires id in b.rows && b.rows[id].paid > 0 && paid > 0
  {
    var row := b.rows[id];
    var target := ClawedBack(commission, refunded, paid, disputed);
    var delta := ClawedBack(row.commission, row.refunded, row.paid, row.disputed) - target;
    b.(rows := b.rows[id := row.(refunded := refunded, disputed := disputed)],
       entries := b.entries + (if delta == 0 then [] else
         [RowEntry(|b.entries|, row, Adjustment, delta, AdjustOf(id))]))
  }

  /** correctRecordedRate(); None is the owner-conflict throw. */
  function CorrectRate(b: Book, id: string, owner: string, rate: nat): Option<Book>
    requires id in b.rows ==> b.rows[id].paid > 0
  {
    if id !in b.rows then Some(b)
    else if b.rows[id].owner != owner then None
    else if b.rows[id].rate == rate then Some(b)
    else
      var row := b.rows[id];
      var after := row.(rate := rate, commission := CommissionAt(row.basis, rate));
      var delta := Net(after) - Net(row);
      Some(b.(rows := b.rows[id := after],
              entries := b.entries + (if delta == 0 then [] else
                [RowEntry(|b.entries|, row, Adjustment, delta, RateOf(id))])))
  }

  // ---------------------------------------------------------------- operator entries

  const CENTS_MAX := 100_000_000

  predicate IsMember(members: seq<Member>, owner: string) {
    exists i :: 0 <= i < |members| && members[i].id == owner
  }

  /** A known member, an operator's kind, and an amount in range with a sign that fits it. */
  predicate Acceptable(members: seq<Member>, owner: string, kind: Kind, amount: int) {
    && IsMember(members, owner)
    && kind in {Earning, Adjustment, Payout} && amount != 0 && -CENTS_MAX <= amount <= CENTS_MAX
    && (kind != Adjustment ==> amount > 0)
  }

  function OperatorEntry(at: nat, owner: string, source: Source, kind: Kind, amount: int, period: nat,
                         text: string, note: string): Entry
  {
    Entry(at, owner, source, kind, if kind == Payout then -amount else amount, period, Manual(text), note, false, None)
  }

  datatype Recorded = Appended(book: Book) | Existing(id: nat) | Refused

  /** The first entry with this operator reference and kind. */
  function FindManual(es: seq<Entry>, text: string, kind: Kind): (at: Option<nat>)
    ensures at.Some? ==> at.value < |es| && es[at.value].reference == Manual(text) && es[at.value].kind == kind
    ensures at.None? <==> forall e :: e in es ==> !(e.reference == Manual(text) && e.kind == kind)
  {
    if es == [] then None else
      assert es == es[..|es| - 1] + [es[|es| - 1]];
      var front := FindManual(es[..|es| - 1], text, kind);
      if front.Some? then front
      else if es[|es| - 1].reference == Manual(text) && es[|es| - 1].kind == kind then Some(|es| - 1)
      else None
  }

  /** record(): `note` stands for the note, method and paid date together. */
  function Record(b: Book, owner: string, source: Source, kind: Kind, amount: int, period: nat,
                  text: string, note: string): Recorded
  {
    if !Acceptable(b.members, owner, kind, amount) then Refused
    else
      var e := OperatorEntry(|b.entries|, owner, source, kind, amount, period, text, note);
      var prior := FindManual(b.entries, text, kind);
      if prior.Some? then
        (if b.entries[prior.value].(id := e.id) == e then Existing(prior.value) else Refused)
      else if kind == Payout && Balance(b.entries, owner, source) < amount then Refused
      else Appended(b.(entries := b.entries + [e]))
  }

  predicate AlreadyReversed(es: seq<Entry>, id: nat) {
    exists e :: e in es && e.reverses == Some(id)
  }

  /** reverse(). */
  function Reverse(b: Book, id: nat, note: string): Recorded {
    if id >= |b.entries| then Refused
    else
      var original := b.entries[id];
      if original.kind !in {Earning, Adjustment, Payout} || original.byStripe then Refused
      else if AlreadyReversed(b.entries, id) then Refused
      else Appended(b.(entries := b.entries + [original.(
        id := |b.entries|, kind := Reversal, cents := -original.cents, reference := ReversalOf(id),
        note := note, byStripe := false, reverses := Some(id))]))
  }

  // ---------------------------------------------------------------- hosting fees

  const HISTORY_MONTHS := 120

  function FeeEntry(at: nat, m: string, amount: int, month: nat): Entry {
    Entry(at, m, Referral, Adjustment, -amount, month, HostingFee(m, month), "", false, None)
  }

  /** One month's debit, unless it is there. */
  function AssessMonth(es: seq<Entry>, m: string, amount: int, month: nat): seq<Entry> {
    if FindReference(es, HostingFee(m, month)).Some? then es else es + [FeeEntry(|es|, m, amount, month)]
  }

  /** One member's debits for the months at..to that are not in the ledger yet. */
  function AssessMonths(es: seq<Entry>, m: string, amount: int, at: nat, to: int): seq<Entry>
    decreases if at <= to then to - at + 1 else 0
  {
    if at > to then es else AssessMonths(AssessMonth(es, m, amount, at), m, amount, at + 1, to)
  }

  /** assessHostingFees() for the members from `i` on; None is the review throw, which
      leaves the file as it was. */
  function AssessFrom(members: seq<Member>, i: nat, es: seq<Entry>, current: nat): Option<seq<Entry>>
    decreases |members| - i
  {
    if i >= |members| then Some(es)
    else if members[i].fee.None? || members[i].fee.value.start > current then
      AssessFrom(members, i + 1, es, current)
    else
      var fee := members[i].fee.value;
      if fee.monthlyCents <= 0 || fee.monthlyCents > CENTS_MAX || current - fee.start >= HISTORY_MONTHS then None
      else AssessFrom(members, i + 1, AssessMonths(es, members[i].id, fee.monthlyCents, fee.start, current), current)
  }

  function AssessHostingFees(b: Book, current: nat): Option<Book> {
    var es := AssessFrom(b.members, 0, b.entries, current);
    if es.None? then None else Some(b.(entries := es.value))
  }
}
