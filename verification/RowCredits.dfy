/** Who is credited: the three transactions on commission rows, balance by balance. */
module RowCredits {
  import opened Basics
  import opened Ledger
  import opened Book
  import opened BookInvariants

  /** The row's owner gains `delta` in the referral program and nobody gains or loses anything
      else, by at most one new entry, in the row's month. */
  ghost predicate Credits(es: seq<Entry>, after: seq<Entry>, row: Row, delta: int, kind: Kind, r: Reference) {
    && Balance(after, row.owner, Referral) == Balance(es, row.owner, Referral) + delta
    && (forall owner, s | owner != row.owner || s != Referral :: Balance(after, owner, s) == Balance(es, owner, s))
    && |after| == |es| + (if delta == 0 then 0 else 1) && after[..|es|] == es
    && (delta != 0 ==>
          var e := after[|es|];
          e.period == row.period && e.kind == kind && e.reference == r && e.byStripe && e.reverses.None?)
  }

  lemma {:induction false} OneCredit(es: seq<Entry>, row: Row, delta: int, kind: Kind, r: Reference)
    ensures Credits(es, es + (if delta == 0 then [] else [RowEntry(|es|, row, kind, delta, r)]), row, delta, kind, r)
  {
    if delta == 0 {
      assert es + [] == es;
    } else {
      var e := RowEntry(|es|, row, kind, delta, r);
      forall owner, s
        ensures Balance(es + [e], owner, s) == Balance(es, owner, s) + BalanceOf(owner, s)(e)
      {
        SumPush(es, e, BalanceOf(owner, s));
      }
    }
  }

  /** A new row credits its owner with the floor of the basis' share, under the reference of
      an invoice or a Checkout; a known row changes nothing. */
  lemma {:induction false} AdmissionCredits(b: Book, id: string, checkout: bool, owner: string, paid: nat,
                                            basis: nat, rate: nat, period: nat)
    ensures var after := AdmitRow(b, id, checkout, owner, paid, basis, rate, period);
            if id in b.rows then after == b
            else
              && after.jobs == b.jobs && after.members == b.members && id in after.rows && after.rows == b.rows[id := after.rows[id]]
              && var row := after.rows[id];
                 && row == Row(owner, paid, basis, row.commission, rate, period, 0, false)
                 && row.commission * 100 <= basis * rate < (row.commission + 1) * 100
                 && Credits(b.entries, after.entries, row, row.commission, Earning, if checkout then CheckoutOf(id) else InvoiceOf(id))
  {
    if id !in b.rows {
      var row := AdmitRow(b, id, checkout, owner, paid, basis, rate, period).rows[id];
      OneCredit(b.entries, row, row.commission, Earning, if checkout then CheckoutOf(id) else InvoiceOf(id));
    }
  }

  /** A refund or dispute credits the owner with what is clawed back less, or more, than
      before; asked of the row as it is, that is what the row nets more, or less. */
  lemma {:induction false} AdjustmentCredits(b: Book, id: string, commission: nat, paid: nat, refunded: nat,
                                             disputed: bool)
    requires id in b.rows && b.rows[id].paid > 0 && paid > 0
    ensures var row := b.rows[id];
            var after := AdjustRow(b, id, commission, paid, refunded, disputed);
            var delta := ClawedBack(row.commission, row.refunded, row.paid, row.disputed) - ClawedBack(commission, refunded, paid, disputed);
            && after.jobs == b.jobs && after.members == b.members
            && after.rows == b.rows[id := row.(refunded := refunded, disputed := disputed)]
            && Credits(b.entries, after.entries, row, delta, Adjustment, AdjustOf(id))
            && (commission == row.commission && paid == row.paid ==> delta == Net(after.rows[id]) - Net(row))
  {
    var row := b.rows[id];
    var target := ClawedBack(commission, refunded, paid, disputed);
    OneCredit(b.entries, row, ClawedBack(row.commission, row.refunded, row.paid, row.disputed) - target, Adjustment, AdjustOf(id));
  }

  /** A corrected rate does the same; a row of another owner is refused, and a row that is
      unknown or has the rate already is left alone. */
  lemma {:induction false} CorrectionCredits(b: Book, id: string, owner: string, rate: nat)
    requires id in b.rows ==> b.rows[id].paid > 0
    ensures var r := CorrectRate(b, id, owner, rate);
            && (r.None? <==> id in b.rows && b.rows[id].owner != owner)
            && (r.Some? && (id !in b.rows || b.rows[id].rate == rate) ==> r.value == b)
            && (r.Some? && id in b.rows ==>
                  var after, row := r.value, b.rows[id];
                  && after.jobs == b.jobs && after.members == b.members && id in after.rows && after.rows == b.rows[id := after.rows[id]]
                  && after.rows[id] == row.(rate := rate, commission := after.rows[id].commission)
                  && (row.rate != rate ==> after.rows[id].commission * 100 <= row.basis * rate < (after.rows[id].commission + 1) * 100)
                  && Credits(b.entries, after.entries, row, Net(after.rows[id]) - Net(row), Adjustment, RateOf(id)))
  {
    if id in b.rows && b.rows[id].owner == owner {
      var row := b.rows[id];
      var after := if row.rate == rate then row else row.(rate := rate, commission := CommissionAt(row.basis, rate));
      OneCredit(b.entries, row, Net(after) - Net(row), Adjustment, RateOf(id));
    }
  }

  // ---------------------------------------------------------------- what earns commission

  /** The basis is the largest amount that leaves room for taxes and hosting in what was
      collected and is no more than the software's own price. */
  lemma {:induction false} BasisIsLargest(p: Purchase, x: int)
    requires x > 0
    ensures x <= Basis(p) <==>
              match p
              case Recurring(paid, taxes, net) => x <= net && x + TaxTotal(taxes) <= paid
              case Bundle(paid, taxes, hosting, software) => x <= software && x + TaxTotal(taxes) + hosting <= paid
              case Checkout(total, tax, subtotal, discount) => x + discount <= subtotal && x + tax <= total
  {
  }

  lemma {:induction false} TaxesAddUp(taxes: seq<nat>, k: nat, more: nat)
    requires k < |taxes|
    ensures TaxTotal(taxes[k := taxes[k] + more]) == TaxTotal(taxes) + more && TaxTotal([]) == 0
  {
    var n := |taxes| - 1;
    if k == n {
      assert taxes[k := taxes[k] + more][..n] == taxes[..n];
    } else {
      TaxesAddUp(taxes[..n], k, more);
      assert taxes[k := taxes[k] + more][..n] == taxes[..n][k := taxes[..n][k] + more];
    }
  }

  /** A member's own rate counts; else 20, 30 or 40 percent, by up to 20, up to 40 or more
      active subscribers. */
  lemma {:induction false} RateByTier(own: Option<nat>, active: nat)
    ensures var rate := AdmissionRate(own, active);
            && (own.Some? ==> rate == own.value)
            && (own.None? ==> rate in {20, 30, 40} && (rate == 20 <==> active < 21) && (rate >= 40 <==> active > 40))
  {
  }
}
