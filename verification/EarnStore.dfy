/** The ledger transactions as the program runs them: fields that are pushed onto, flags
    that are set, loops over allocations with a running debt. Every transaction keeps
    every invariant of `BookInvariants` true of the object. */
module EarnStore {
  import opened Basics
  import opened Ledger
  import B = Book
  import opened BookInvariants
  import opened Payouts
  import opened Settlement
  import opened Admission
  import opened RowCredits

  class Store {
    var members: seq<B.Member>
    var entries: seq<Entry>
    var jobs: seq<B.Job>
    var rows: map<string, B.Row>

    constructor ()
      ensures Valid() && Snapshot() == B.Book([], [], [], map[])
    {
      members, entries, jobs, rows := [], [], [], map[];
    }

    ghost function Snapshot(): B.Book
      reads this
    {
      B.Book(members, entries, jobs, rows)
    }

    ghost predicate Valid()
      reads this
    {
      BookInvariants.Valid(Snapshot())
    }

    /** `entries.find(e => e.reference === r)`. */
    method Find(r: Reference) returns (at: Option<nat>)
      ensures at == FindReference(entries, r)
    {
      for i := 0 to |entries|
        invariant FindReference(entries[..i], r).None?
      {
        assert entries[..i + 1][..i] == entries[..i];
        if entries[i].reference == r {
          at := Some(i);
          FoundEarly(entries, i + 1, r);
          return;
        }
      }
      assert entries[..|entries|] == entries;
      at := None;
    }

    /** Appends one stripe entry for a job. */
    method Push(job: B.Job, source: Source, kind: Kind, cents: int, r: Reference, reverses: Option<nat>)
      modifies this`entries
      ensures entries == old(entries) + [B.StripeEntry(|old(entries)|, job, source, kind, cents, r, reverses)]
    {
      entries := entries + [B.StripeEntry(|entries|, job, source, kind, cents, r, reverses)];
    }

    /** Where each allocation's paid entry stands. */
    method FindOriginals(j: nat, allocations: seq<B.Share>) returns (originals: Option<map<Source, nat>>)
      ensures originals == B.Originals(entries, j, allocations)
    {
      var all: map<Source, nat> := map[];
      for i := 0 to |allocations|
        invariant B.Originals(entries, j, allocations[..i]) == Some(all)
      {
        assert allocations[..i + 1][..i] == allocations[..i];
        var found := Find(PayoutOf(j, allocations[i].source));
        if found.None? {
          MissingStays(entries, j, allocations, i + 1);
          return None;
        }
        all := all[allocations[i].source := found.value];
      }
      assert allocations[..|allocations|] == allocations;
      originals := Some(all);
    }

    method PostPaid(j: nat, job: B.Job)
      modifies this`entries
      ensures entries == old(entries) + B.Postings(|old(entries)|, j, job, B.Settle, job.allocations)
    {
      ghost var es := entries;
      for i := 0 to |job.allocations|
        invariant entries == es + B.Postings(|es|, j, job, B.Settle, job.allocations[..i])
      {
        var a := job.allocations[i];
        ghost var front := entries;
        Push(job, a.source, Release, a.cents, ReleaseOf(j, a.source), None);
        Push(job, a.source, Payout, -a.cents, PayoutOf(j, a.source), None);
        assert entries == front + B.Lines(|front|, j, job, B.Settle, a);
        PostingsPush(es, j, job, B.Settle, job.allocations, i);
      }
      assert job.allocations[..|job.allocations|] == job.allocations;
    }

    /** Gives back a payout that ended: undoes a paid one, releases a reserved one. */
    method PostClosed(j: nat, job: B.Job, originals: map<Source, nat>)
      modifies this`entries
      ensures entries == old(entries) +
                (if job.paid && !job.returned then B.Postings(|old(entries)|, j, job, B.Undo(originals), job.allocations)
                 else if !job.released then B.Postings(|old(entries)|, j, job, B.Restore, job.allocations) else [])
    {
      ghost var es := entries;
      ghost var p := if job.paid && !job.returned then B.Undo(originals) else B.Restore;
      var posts := (job.paid && !job.returned) || !job.released;
      for i := 0 to |job.allocations|
        invariant entries == es + (if posts then B.Postings(|es|, j, job, p, job.allocations[..i]) else [])
      {
        var a := job.allocations[i];
        ghost var front := entries;
        if job.paid && !job.returned {
          Push(job, a.source, Reversal, a.cents, ReturnOf(j, a.source),
               Some(if a.source in originals then originals[a.source] else 0));
          assert entries == front + B.Lines(|front|, j, job, p, a);
        } else if !job.released {
          Push(job, a.source, Release, a.cents, ReleaseOf(j, a.source), None);
          assert entries == front + B.Lines(|front|, j, job, p, a);
        }
        if posts {
          PostingsPush(es, j, job, p, job.allocations, i);
        }
      }
      assert job.allocations[..|job.allocations|] == job.allocations;
    }

    /** settleInState(): a paid job's entries are always there, so its throw is never met. */
    method SettleInState(j: nat, status: B.Status, at: nat) returns (settled: bool, changed: bool)
      requires Valid() && j < |jobs|
      modifies this
      ensures Valid() && settled && B.SettleInState(old(Snapshot()), j, status, at) == B.Settled(Snapshot(), changed)
      ensures SettledAs(old(Snapshot()), Snapshot(), j, status, at)
      ensures |jobs| == |old(jobs)| && jobs == old(jobs)[j := jobs[j]] && (changed <==> jobs[j] != old(jobs[j]))
    {
      SettleKeepsValid(Snapshot(), j, status, at);
      SettlementExact(Snapshot(), j, status, at);
      settled, changed := SettleJob(j, status, at);
    }

    method SettleJob(j: nat, status: B.Status, at: nat) returns (settled: bool, changed: bool)
      requires j < |jobs|
      modifies this
      ensures match B.SettleInState(old(Snapshot()), j, status, at)
              case Settled(book, moved) => settled && Snapshot() == book && changed == moved
              case MissingOriginal => !settled && Snapshot() == old(Snapshot())
    {
      var job := jobs[j];
      if !B.Settleable(job, status) {
        return true, false;
      }
      var originals: map<Source, nat> := map[];
      if B.Closing(status) && job.paid && !job.returned {
        var found := FindOriginals(j, job.allocations);
        if found.None? {
          return false, false;
        }
        originals := found.value;
      }
      if status == B.Posted && !job.paid {
        PostPaid(j, job);
        job := job.(paid := true, released := true);
      }
      if B.Closing(status) {
        PostClosed(j, job, originals);
        job := job.(released := true, returned := job.paid || status == B.Returned);
      }
      job := job.(status := status, checked := at, error := if status == B.Posted then None else job.error);
      changed := job != jobs[j];
      jobs := jobs[j := job];
      settled := true;
    }

    /** One conservative total: earlier months in full, later entries only as debits. */
    method ConservativeTotal(owner: string, source: Source, cycle: nat) returns (cents: int)
      ensures cents == Sum(entries, B.Conservative(owner, source, cycle)) == Worth(entries, owner, source, cycle)
    {
      SumSame(entries, B.Conservative(owner, source, cycle), CountedIn(owner, source, cycle));
      cents := 0;
      for i := 0 to |entries|
        invariant cents == Sum(entries[..i], B.Conservative(owner, source, cycle))
      {
        assert entries[..i + 1][..i] == entries[..i];
        var e := entries[i];
        if e.owner == owner && e.source == source {
          cents := cents + (if e.period < cycle then e.cents else Min(0, e.cents));
        }
      }
      assert entries[..|entries|] == entries;
    }

    /** The greedy offset with its running debt. */
    method OffsetDebt(totals: seq<B.Share>) returns (allocations: seq<B.Share>, amount: int)
      ensures allocations == B.Offset(totals, B.Debt(totals)).0
      ensures amount == B.ShareTotal(allocations)
    {
      var debt: nat := 0;
      for i := 0 to |totals|
        invariant debt == B.Debt(totals[..i])
      {
        assert totals[..i + 1][..i] == totals[..i];
        if totals[i].cents < 0 {
          debt := debt - totals[i].cents;
        }
      }
      assert totals[..|totals|] == totals;
      allocations, amount := [], 0;
      for i := 0 to |totals|
        invariant (allocations, debt) == B.Offset(totals[..i], B.Debt(totals))
        invariant amount == B.ShareTotal(allocations)
      {
        OffsetPush(totals, i, B.Debt(totals));
        var t := totals[i];
        if t.cents > 0 {
          var offset := Min(t.cents, debt);
          debt := debt - offset;
          if t.cents - offset > 0 {
            SharePush(allocations, B.Share(t.source, t.cents - offset));
            allocations := allocations + [B.Share(t.source, t.cents - offset)];
            amount := amount + t.cents - offset;
          }
        }
      }
    }

    method PostReserved(j: nat, job: B.Job)
      modifies this`entries
      ensures entries == old(entries) + B.Postings(|old(entries)|, j, job, B.Reserve, job.allocations)
    {
      ghost var es := entries;
      for i := 0 to |job.allocations|
        invariant entries == es + B.Postings(|es|, j, job, B.Reserve, job.allocations[..i])
      {
        var a := job.allocations[i];
        Push(job, a.source, Hold, -a.cents, HoldOf(j, a.source), None);
        PostingsPush(es, j, job, B.Reserve, job.allocations, i);
      }
      assert job.allocations[..|job.allocations|] == job.allocations;
    }

    method AdmitPayout(owner: string, cycle: nat, recipient: string, account: string, now: nat) returns (admitted: bool)
      requires Valid()
      modifies this
      ensures Valid() && members == old(members) && rows == old(rows)
      ensures Snapshot() == B.AdmitPayout(old(Snapshot()), owner, cycle, recipient, account, now)
      ensures AdmittedAs(old(Snapshot()), Snapshot(), owner, cycle, recipient, account, now)
      ensures admitted <==> |jobs| == |old(jobs)| + 1
    {
      AdmitKeepsValid(Snapshot(), owner, cycle, recipient, account, now);
      AdmissionExact(Snapshot(), owner, cycle, recipient, account, now);
      admitted := ReserveFor(owner, cycle, recipient, account, now);
    }

    method ReserveFor(owner: string, cycle: nat, recipient: string, account: string, now: nat) returns (admitted: bool)
      modifies this`jobs, this`entries
      ensures Snapshot() == B.AdmitPayout(old(Snapshot()), owner, cycle, recipient, account, now)
      ensures admitted <==> |jobs| == |old(jobs)| + 1
    {
      for j := 0 to |jobs|
        invariant forall k | 0 <= k < j :: jobs[k].owner != owner || jobs[k].cycle != cycle
      {
        if jobs[j].owner == owner && jobs[j].cycle == cycle {
          return false;
        }
      }
      var referral := ConservativeTotal(owner, Referral, cycle);
      var exchange := ConservativeTotal(owner, Exchange, cycle);
      var marketplace := ConservativeTotal(owner, Marketplace, cycle);
      var allocations, amount := OffsetDebt(
        [B.Share(Referral, referral), B.Share(Exchange, exchange), B.Share(Marketplace, marketplace)]);
      if amount < 1 {
        return false;
      }
      var job := B.NewJob(owner, cycle, recipient, account, now, allocations);
      var id := |jobs|;
      jobs := jobs + [job];
      PostReserved(id, job);
      admitted := true;
    }

    /** The admission transaction of a proved purchase: `own` is the member's own rate. */
    method AdmitRow(id: string, owner: string, p: B.Purchase, own: Option<nat>, active: nat, period: nat)
      requires Valid() && B.Admissible(p) && (own.Some? ==> own.value <= 100)
      modifies this
      ensures Valid() && id in rows && rows[id].paid > 0 && Sum(entries, RowCents(id)) == B.Net(rows[id])
      ensures Snapshot() == B.AdmitRow(old(Snapshot()), id, p.Checkout?, owner, B.PaidAmount(p), B.Basis(p),
                                       B.AdmissionRate(own, active), period)
      ensures id in old(rows) ==> Snapshot() == old(Snapshot())
      ensures id !in old(rows) ==>
                var row := rows[id];
                && row.owner == owner && row.basis == B.Basis(p) <= row.paid && row.refunded == 0 && !row.disputed
                && row.rate == B.AdmissionRate(own, active) && row.period == period
                && row.commission * 100 <= row.basis * row.rate < (row.commission + 1) * 100
                && Credits(old(entries), entries, row, row.commission, Earning, if p.Checkout? then CheckoutOf(id) else InvoiceOf(id))
    {
      AdmissionCredits(Snapshot(), id, p.Checkout?, owner, B.PaidAmount(p), B.Basis(p), B.AdmissionRate(own, active), period);
      AdmitRowKeepsValid(Snapshot(), id, p.Checkout?, owner, B.PaidAmount(p), B.Basis(p), B.AdmissionRate(own, active), period);
      NewRow(id, p.Checkout?, owner, B.PaidAmount(p), B.Basis(p), B.AdmissionRate(own, active), period);
      RowFacts(Snapshot(), id);
    }

    /** The row, if it is new, and the entry that earns its commission, if it has one. */
    method NewRow(id: string, checkout: bool, owner: string, paid: nat, basis: nat, rate: nat, period: nat)
      modifies this`rows, this`entries
      ensures Snapshot() == B.AdmitRow(old(Snapshot()), id, checkout, owner, paid, basis, rate, period)
    {
      if id in rows {
        return;
      }
      var row := B.Row(owner, paid, basis, B.CommissionAt(basis, rate), rate, period, 0, false);
      rows := rows[id := row];
      if row.commission != 0 {
        var first := if checkout then CheckoutOf(id) else InvoiceOf(id);
        entries := entries + [B.RowEntry(|entries|, row, Earning, row.commission, first)];
      }
    }

    /** `if (delta) s.entries.push(...)`. */
    method PostDelta(row: B.Row, delta: int, r: Reference)
      modifies this`entries
      ensures entries == old(entries) + (if delta == 0 then [] else [B.RowEntry(|old(entries)|, row, Adjustment, delta, r)])
    {
      if delta != 0 {
        entries := entries + [B.RowEntry(|entries|, row, Adjustment, delta, r)];
      }
    }

    /** The transaction of adjustInvoice(), `commission` and `paid` read before the provider
        was asked. It keeps the ledger's closed forms exactly when those are as good as the
        row's own; then the row's entries sum to its net commission under the new facts. */
    method AdjustRow(id: string, commission: nat, paid: nat, refunded: nat, disputed: bool)
      requires Valid() && id in rows && paid > 0
      modifies this
      ensures old(rows[id].paid) > 0
      ensures rows == old(rows)[id := old(rows[id]).(refunded := refunded, disputed := disputed)]
      ensures jobs == old(jobs) && members == old(members)
      ensures var due := B.ClawedBack(old(rows[id].commission), refunded, old(rows[id].paid), disputed);
              var asked := B.ClawedBack(commission, refunded, paid, disputed);
              && Credits(old(entries), entries, old(rows[id]),
                         B.ClawedBack(old(rows[id].commission), old(rows[id].refunded), old(rows[id].paid), old(rows[id].disputed)) - asked,
                         Adjustment, AdjustOf(id))
              && (Valid() <==> asked == due) && (Sum(entries, RowCents(id)) == B.Net(rows[id]) <==> asked == due)
    {
      RowFacts(Snapshot(), id);
      AdjustmentCredits(Snapshot(), id, commission, paid, refunded, disputed);
      StaleAdjustment(Snapshot(), id, commission, paid, refunded, disputed);
      ApplyFacts(id, commission, paid, refunded, disputed);
    }

    method ApplyFacts(id: string, commission: nat, paid: nat, refunded: nat, disputed: bool)
      requires id in rows && rows[id].paid > 0 && paid > 0
      modifies this`rows, this`entries
      ensures Snapshot() == B.AdjustRow(old(Snapshot()), id, commission, paid, refunded, disputed)
    {
      var row := rows[id];
      var target := B.ClawedBack(commission, refunded, paid, disputed);
      var delta := B.ClawedBack(row.commission, row.refunded, row.paid, row.disputed) - target;
      PostDelta(row, delta, AdjustOf(id));
      rows := rows[id := row.(refunded := refunded, disputed := disputed)];
    }

    /** correctRecordedRate(): refused for another owner's row. */
    method CorrectRate(id: string, owner: string, rate: nat) returns (ok: bool)
      requires Valid() && rate <= 100
      modifies this
      ensures Valid() && jobs == old(jobs) && members == old(members)
      ensures ok <==> (id in old(rows) ==> old(rows[id].owner) == owner)
      ensures !ok || id !in old(rows) ==> Snapshot() == old(Snapshot())
      ensures ok && id in old(rows) ==>
                id in rows && rows == old(rows)[id := rows[id]] && CorrectedTo(rows[id], rate, entries, id)
      ensures ok && id in old(rows) ==>
                && old(rows[id].paid) > 0 && id in rows && rows[id].paid > 0
                && Credits(old(entries), entries, old(rows[id]), B.Net(rows[id]) - B.Net(old(rows[id])), Adjustment, RateOf(id))
    {
      CorrectRateKeepsValid(Snapshot(), id, owner, rate);
      CorrectRateExact(Snapshot(), id, owner, rate);
      CorrectionCredits(Snapshot(), id, owner, rate);
      ok := ReplaceRate(id, owner, rate);
    }

    method ReplaceRate(id: string, owner: string, rate: nat) returns (ok: bool)
      requires id in rows ==> rows[id].paid > 0
      modifies this`rows, this`entries
      ensures var r := B.CorrectRate(old(Snapshot()), id, owner, rate);
              ok == r.Some? && Snapshot() == if ok then r.value else old(Snapshot())
    {
      if id !in rows {
        return true;
      }
      var row := rows[id];
      if row.owner != owner {
        return false;
      }
      if row.rate != rate {
        var after := row.(rate := rate, commission := B.CommissionAt(row.basis, rate));
        var delta := B.Net(after) - B.Net(row);
        PostDelta(row, delta, RateOf(id));
        rows := rows[id := after];
      }
      ok := true;
    }

    method BalanceOfSource(owner: string, source: Source) returns (cents: int)
      ensures cents == Balance(entries, owner, source)
    {
      cents := 0;
      for i := 0 to |entries|
        invariant cents == Sum(entries[..i], BalanceOf(owner, source))
      {
        assert entries[..i + 1][..i] == entries[..i];
        if entries[i].owner == owner && entries[i].source == source {
          cents := cents + entries[i].cents;
        }
      }
      assert entries[..|entries|] == entries;
    }

    method HasMember(owner: string) returns (found: bool)
      ensures found <==> B.IsMember(members, owner)
    {
      for i := 0 to |members|
        invariant forall k | 0 <= k < i :: members[k].id != owner
      {
        if members[i].id == owner {
          return true;
        }
      }
      found := false;
    }

    /** `entries.find(e => e.reference === text && e.kind === kind)`. */
    method FindOperator(text: string, kind: Kind) returns (at: Option<nat>)
      requires OperatorOk(entries)
      ensures at == B.FindManual(entries, text, kind)
    {
      for i := 0 to |entries|
        invariant forall k | 0 <= k < i :: !SameUse(entries[k], text, kind)
      {
        if entries[i].reference == Manual(text) && entries[i].kind == kind {
          UsedOnce(entries, i, B.FindManual(entries, text, kind).value, text, kind);
          return Some(i);
        }
      }
      at := None;
    }

    method IsReversed(id: nat) returns (found: bool)
      ensures found <==> B.AlreadyReversed(entries, id)
    {
      for i := 0 to |entries|
        invariant forall k | 0 <= k < i :: entries[k].reverses != Some(id)
      {
        if entries[i].reverses == Some(id) {
          return true;
        }
      }
      found := false;
    }

    /** record(): a new entry, the entry of an exact repeat, or a refusal. */
    method Record(owner: string, source: Source, kind: Kind, amount: int, period: nat, text: string, note: string)
      returns (r: Outcome)
      requires Valid()
      modifies this`entries
      ensures Valid() && B.Record(old(Snapshot()), owner, source, kind, amount, period, text, note) == Answered(r, Snapshot())
      ensures if r.Appended?
              then entries == old(entries) + [B.OperatorEntry(|old(entries)|, owner, source, kind, amount, period, text, note)]
              else entries == old(entries)
      ensures r.Appended? && kind == Payout ==> Balance(entries, owner, source) == Balance(old(entries), owner, source) - amount >= 0
    {
      RecordKeepsValid(Snapshot(), owner, source, kind, amount, period, text, note);
      RecordExact(Snapshot(), owner, source, kind, amount, period, text, note);
      r := Append(owner, source, kind, amount, period, text, note);
    }

    method Append(owner: string, source: Source, kind: Kind, amount: int, period: nat, text: string, note: string)
      returns (r: Outcome)
      requires OperatorOk(entries)
      modifies this`entries
      ensures B.Record(old(Snapshot()), owner, source, kind, amount, period, text, note) == Answered(r, Snapshot())
      ensures if r.Appended?
              then entries == old(entries) + [B.OperatorEntry(|old(entries)|, owner, source, kind, amount, period, text, note)]
              else entries == old(entries)
    {
      var known := HasMember(owner);
      if !known || kind !in {Earning, Adjustment, Payout} {
        return Refused;
      }
      if amount > B.CENTS_MAX || -amount > B.CENTS_MAX || amount == 0 || (kind != Adjustment && amount < 0) {
        return Refused;
      }
      var e := B.OperatorEntry(|entries|, owner, source, kind, amount, period, text, note);
      var prior := FindOperator(text, kind);
      if prior.Some? {
        return if entries[prior.value].(id := e.id) == e then Existing(prior.value) else Refused;
      }
      var balance := BalanceOfSource(owner, source);
      if kind == Payout && balance < amount {
        return Refused;
      }
      entries := entries + [e];
      r := Appended;
    }

    /** reverse(): the opposite of an operator's entry, at most once for each. */
    method Reverse(id: nat, note: string) returns (r: Outcome)
      requires Valid()
      modifies this`entries
      ensures Valid() && B.Reverse(old(Snapshot()), id, note) == Answered(r, Snapshot())
      ensures |entries| == |old(entries)| + (if r.Appended? then 1 else 0) && entries[..|old(entries)|] == old(entries)
      ensures r.Appended? ==> forall k | 0 <= k < |entries| :: entries[k].reverses == Some(id) <==> k == |old(entries)|
    {
      ReverseKeepsValid(Snapshot(), id, note);
      if id >= |entries| {
        return Refused;
      }
      var original := entries[id];
      if original.kind !in {Earning, Adjustment, Payout} || original.byStripe {
        return Refused;
      }
      var reversed := IsReversed(id);
      if reversed {
        return Refused;
      }
      entries := entries + [original.(id := |entries|, kind := Reversal, cents := -original.cents,
                                      reference := ReversalOf(id), note := note, byStripe := false, reverses := Some(id))];
      r := Appended;
    }

    /** Works on a copy that is saved only when no member's history needs review. */
    method AssessHostingFees(current: nat) returns (ok: bool)
      requires Valid()
      modifies this`entries
      ensures Valid()
      ensures var es := B.AssessFrom(members, 0, old(entries), current);
              if es.Some? then ok && entries == es.value else !ok && entries == old(entries)
    {
      AssessFromKeepsValid(Snapshot(), members, 0, current);
      var es := AssessMembers(members, entries, current);
      ok := es.Some?;
      if ok {
        entries := es.value;
      }
    }
  }

  datatype Outcome = Appended | Existing(at: nat) | Refused

  /** What a transaction answers and leaves, as `Book` says it. */
  function Answered(r: Outcome, after: B.Book): B.Recorded {
    match r
    case Appended => B.Appended(after)
    case Existing(at) => B.Existing(at)
    case Refused => B.Refused
  }

  method AssessMonth(es: seq<Entry>, m: string, amount: int, month: nat) returns (after: seq<Entry>)
    ensures after == B.AssessMonth(es, m, amount, month)
  {
    var r := HostingFee(m, month);
    if FindReference(es, r).Some? {
      return es;
    }
    return es + [Entry(|es|, m, Referral, Adjustment, -amount, month, r, "", false, None)];
  }

  /** The months of one member. */
  method AssessMember(es: seq<Entry>, m: string, amount: int, start: nat, current: nat) returns (after: seq<Entry>)
    ensures after == B.AssessMonths(es, m, amount, start, current)
  {
    after := es;
    var at := start;
    while at <= current
      invariant B.AssessMonths(after, m, amount, at, current) == B.AssessMonths(es, m, amount, start, current)
      decreases current - at
    {
      after := AssessMonth(after, m, amount, at);
      at := at + 1;
    }
  }

  /** All members; None when one of them needs review. */
  method AssessMembers(members: seq<B.Member>, es: seq<Entry>, current: nat) returns (after: Option<seq<Entry>>)
    ensures after == B.AssessFrom(members, 0, es, current)
  {
    var soFar := es;
    for i := 0 to |members|
      invariant B.AssessFrom(members, 0, es, current) == B.AssessFrom(members, i, soFar, current)
    {
      var m := members[i];
      if m.fee.Some? && m.fee.value.start <= current {
        var fee := m.fee.value;
        if fee.monthlyCents <= 0 || fee.monthlyCents > B.CENTS_MAX || current - fee.start >= B.HISTORY_MONTHS {
          return None;
        }
        soFar := AssessMember(soFar, m.id, fee.monthlyCents, fee.start, current);
      }
    }
    return Some(soFar);
  }

  lemma {:induction false} OffsetPush(totals: seq<B.Share>, i: nat, debt: nat)
    requires i < |totals|
    ensures var (front, left) := B.Offset(totals[..i], debt);
            var t := totals[i];
            B.Offset(totals[..i + 1], debt) ==
              if t.cents <= 0 then (front, left)
              else
                var taken := Min(t.cents, left);
                (if t.cents > taken then front + [B.Share(t.source, t.cents - taken)] else front, left - taken)
  {
    assert totals[..i + 1][..i] == totals[..i];
  }

  lemma {:induction false} SharePush(allocations: seq<B.Share>, a: B.Share)
    ensures B.ShareTotal(allocations + [a]) == B.ShareTotal(allocations) + a.cents
  {
    assert (allocations + [a])[..|allocations|] == allocations;
  }

  lemma {:induction false} PostingsPush(es: seq<Entry>, j: nat, job: B.Job, p: B.Posting, allocations: seq<B.Share>,
                                        i: nat)
    requires i < |allocations|
    ensures var front := es + B.Postings(|es|, j, job, p, allocations[..i]);
            es + B.Postings(|es|, j, job, p, allocations[..i + 1]) == front + B.Lines(|front|, j, job, p, allocations[i])
  {
    assert allocations[..i + 1][..i] == allocations[..i];
  }

  lemma {:induction false} FoundEarly(es: seq<Entry>, n: nat, r: Reference)
    requires 0 < n <= |es| && FindReference(es[..n - 1], r).None? && es[n - 1].reference == r
    ensures FindReference(es, r) == Some(n - 1)
  {
    if n < |es| {
      assert es[..|es| - 1][..n - 1] == es[..n - 1];
      FoundEarly(es[..|es| - 1], n, r);
    }
  }

  lemma {:induction false} MissingStays(es: seq<Entry>, j: nat, allocations: seq<B.Share>, n: nat)
    requires n <= |allocations| && B.Originals(es, j, allocations[..n]).None?
    ensures B.Originals(es, j, allocations).None?
  {
    if n == |allocations| {
      assert allocations[..n] == allocations;
    } else {
      assert allocations[..|allocations| - 1][..n] == allocations[..n];
      MissingStays(es, j, allocations[..|allocations| - 1], n);
    }
  }
}
