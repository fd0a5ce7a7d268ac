/** Commission rows under repetition, reordering and stale reads. */
module Commission {
  import opened Basics
  import opened Ledger
  import opened Book
  import opened BookInvariants
  import opened Hub
  import opened HubSafety

  /** What the provider's invoice and refund events do to a row: admit it if it is new,
      then bring it in line with the refund and dispute facts. */
  function HandlePurchase(b: Book, id: string, checkout: bool, owner: string, paid: nat, basis: nat, rate: nat,
                          period: nat, refunded: nat, disputed: bool): Book
    requires paid > 0 && forall r :: r in b.rows ==> b.rows[r].paid > 0
  {
    var admitted := AdmitRow(b, id, checkout, owner, paid, basis, rate, period);
    var row := admitted.rows[id];
    AdjustRow(admitted, id, row.commission, row.paid, refunded, disputed)
  }

  /** Handling a purchase again with the same facts - a repeated delivery, or one replayed
      after its event was evicted from the list of seen events - changes nothing, whatever
      the second delivery claims about owner, amounts or rate. */
  lemma {:induction false} ReplayAddsNothing(b: Book, id: string, checkout: bool, owner: string, paid: nat,
                                             basis: nat, rate: nat, period: nat, owner': string, paid': nat,
                                             basis': nat, rate': nat, period': nat, refunded: nat, disputed: bool)
    requires paid > 0 && paid' > 0 && forall r :: r in b.rows ==> b.rows[r].paid > 0
    ensures var once := HandlePurchase(b, id, checkout, owner, paid, basis, rate, period, refunded, disputed);
            && (forall r :: r in once.rows ==> once.rows[r].paid > 0)
            && HandlePurchase(once, id, checkout, owner', paid', basis', rate', period', refunded, disputed) == once
  {
    var once := HandlePurchase(b, id, checkout, owner, paid, basis, rate, period, refunded, disputed);
    UnchangedFactsAddNothing(once, id);
  }

  /** In every reachable state, asking again and finding the refund and dispute facts the
      row already has leaves the whole book as it is. */
  lemma {:induction false} UnchangedFactsAddNothing(b: Book, id: string)
    requires id in b.rows && b.rows[id].paid > 0
    ensures var row := b.rows[id];
            AdjustRow(b, id, row.commission, row.paid, row.refunded, row.disputed) == b
  {
    var row := b.rows[id];
    assert row == row.(refunded := row.refunded, disputed := row.disputed);
    assert b.rows[id := row] == b.rows;
    assert b.entries + [] == b.entries;
  }

  lemma {:induction false} RepeatedCorrectionAddsNothing(b: Book, id: string, owner: string, rate: nat)
    requires id in b.rows && b.rows[id].paid > 0
    requires CorrectRate(b, id, owner, rate).Some?
    ensures var once := CorrectRate(b, id, owner, rate).value;
            id in once.rows && once.rows[id].paid > 0 && CorrectRate(once, id, owner, rate) == Some(once)
  {
  }

  lemma {:induction false} ClawBackIsFloor(commission: nat, refunded: nat, paid: nat)
    requires paid > 0
    ensures ClawedBack(commission, refunded, paid, false) == commission * Min(refunded, paid) / paid <= commission
  {
    ClawedBackBounds(commission, refunded, paid, false);
  }

  /** The claw-back is the largest whole number of cents not above the refunded part. */
  lemma {:induction false} ClawBackProportional(commission: nat, refunded: nat, paid: nat)
    requires paid > 0
    ensures var c := ClawedBack(commission, refunded, paid, false);
            c * paid <= commission * Min(refunded, paid) < (c + 1) * paid
  {
    ClawBackIsFloor(commission, refunded, paid);
    FloorBounds(commission * Min(refunded, paid), paid);
  }

  /** It grows with the refund, from nothing to everything. */
  lemma {:induction false} ClawBackMonotone(commission: nat, refunded: nat, more: nat, paid: nat)
    requires paid > 0 && refunded <= more
    ensures ClawedBack(commission, refunded, paid, false) <= ClawedBack(commission, more, paid, false)
    ensures ClawedBack(commission, 0, paid, false) == 0
    ensures more >= paid ==> ClawedBack(commission, more, paid, false) == commission
  {
    ClawBackIsFloor(commission, refunded, paid);
    ClawBackIsFloor(commission, more, paid);
    var x, y := Min(refunded, paid), Min(more, paid);
    Scale(x, y, commission);
    FloorMonotone(x * commission, y * commission, paid);
    FloorExact(0, paid);
    FloorExact(commission, paid);
  }

  lemma {:induction false} FloorBounds(a: nat, p: nat)
    requires p > 0
    ensures a / p * p <= a < (a / p + 1) * p
  {
  }

  lemma {:induction false} FloorMonotone(a: nat, b: nat, p: nat)
    requires p > 0 && a <= b
    ensures a / p <= b / p
  {
    FloorBounds(a, p);
    FloorBounds(b, p);
    if a / p > b / p {
      Scale(b / p + 1, a / p, p);
    }
  }

  lemma {:induction false} FloorExact(c: nat, p: nat)
    requires p > 0
    ensures c * p / p == c
  {
    var q := c * p / p;
    FloorBounds(c * p, p);
    if q > c {
      Scale(c + 1, q, p);
    } else if q < c {
      Scale(q + 1, c, p);
    }
  }

  /** Confluence over runs: two runs that end with the same amounts, rate and refund facts
      for a row have credited the same commission, in whatever order admission, refunds,
      disputes and rate corrections happened. */
  lemma {:induction false} SameFactsSameCommission(now: nat, actions: seq<Action>, others: seq<Action>, id: string)
    requires var b, c := Run(Start(now), actions).book, Run(Start(now), others).book;
             id in b.rows && id in c.rows
             && b.rows[id].(owner := "", period := 0, commission := 0) == c.rows[id].(owner := "", period := 0, commission := 0)
    ensures Sum(Run(Start(now), actions).book.entries, RowCents(id)) == Sum(Run(Start(now), others).book.entries, RowCents(id))
  {
    RunSound(now, actions);
    RunSound(now, others);
    var b, c := Run(Start(now), actions).book, Run(Start(now), others).book;
    assert RowTracked(b.entries, b.rows, id) && RowTracked(c.entries, c.rows, id);
  }
}
