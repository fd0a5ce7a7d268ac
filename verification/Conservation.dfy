/** What the member and admin views add up to: balances, paid money and reservations. */
module Conservation {
  import opened Basics
  import opened Ledger
  import opened Book
  import opened BookInvariants

  /** The kind of the entry a reversal undoes, looked up by identifier in the whole ledger. */
  predicate UndoesPayout(es: seq<Entry>, e: Entry) {
    e.reverses.Some? && e.reverses.value < |es| && es[e.reverses.value].kind == Payout
  }

  function PaidSide(es: seq<Entry>, owner: string): Measure {
    (e: Entry) => if e.owner == owner && (e.kind == Payout || (e.kind == Reversal && UndoesPayout(es, e))) then e.cents else 0
  }

  function CreditSide(es: seq<Entry>, owner: string): Measure {
    (e: Entry) =>
      if e.owner == owner && (e.kind in {Earning, Adjustment} || (e.kind == Reversal && !UndoesPayout(es, e))) then e.cents else 0
  }

  /** `paidCents` of the member view. */
  function PaidCents(es: seq<Entry>, owner: string): int { -Sum(es, PaidSide(es, owner)) }

  /** Net credited earnings and adjustments. */
  function Credited(es: seq<Entry>, owner: string): int { Sum(es, CreditSide(es, owner)) }

  function NotReserved(es: seq<Entry>, owner: string): Measure {
    (e: Entry) => if e.owner == owner && e.kind !in {Hold, Release} then e.cents else 0
  }

  /** An operator payout that no operator reversal has undone. */
  function OutstandingManual(es: seq<Entry>, owner: string): Measure {
    (e: Entry) => if e.owner == owner && e.kind == Payout && !e.byStripe && !AlreadyReversed(es, e.id) then e.cents else 0
  }

  function UnreversedManualPayouts(es: seq<Entry>, owner: string): int { -Sum(es, OutstandingManual(es, owner)) }

  /** Operator payouts and the operator reversals of them. */
  function ManualSide(es: seq<Entry>, owner: string): Measure {
    (e: Entry) =>
      if e.owner == owner && !e.byStripe && (e.kind == Payout || (e.kind == Reversal && UndoesPayout(es, e))) then e.cents else 0
  }

  lemma {:induction false} ShapeOfFront(es: seq<Entry>)
    requires es != [] && ShapeOk(es)
    ensures ShapeOk(es[..|es| - 1])
  {
    var front := es[..|es| - 1];
    forall i | 0 <= i < |front|
      ensures EntryOk(front, i)
    {
      assert EntryOk(es, i);
    }
  }

  /** The measures of the earlier entries do not depend on the last one. */
  lemma {:induction false} ManualSideOfFront(es: seq<Entry>, owner: string)
    requires es != [] && ShapeOk(es)
    ensures Sum(es[..|es| - 1], ManualSide(es, owner)) == Sum(es[..|es| - 1], ManualSide(es[..|es| - 1], owner))
  {
    var front := es[..|es| - 1];
    forall d | d in front
      ensures ManualSide(es, owner)(d) == ManualSide(front, owner)(d)
    {
      var i :| 0 <= i < |front| && front[i] == d;
      assert EntryOk(es, i);
    }
    SumSame(front, ManualSide(es, owner), ManualSide(front, owner));
  }

  /** A last entry that reverses nothing leaves the outstanding payouts as they were. */
  lemma {:induction false} OutstandingUnmoved(es: seq<Entry>, owner: string)
    requires es != [] && ShapeOk(es)
    requires var e := es[|es| - 1]; e.reverses.None? || e.byStripe || (e.reverses.value < |es| && es[e.reverses.value].kind != Payout)
    ensures Sum(es[..|es| - 1], OutstandingManual(es, owner)) == Sum(es[..|es| - 1], OutstandingManual(es[..|es| - 1], owner))
  {
    var front := es[..|es| - 1];
    assert EntryOk(es, |es| - 1);
    forall d | d in front
      ensures OutstandingManual(front, owner)(d) == OutstandingManual(es, owner)(d)
    {
      var i :| 0 <= i < |front| && front[i] == d;
      ReversedInFront(es, i);
      assert EntryOk(es, i);
    }
    SumSame(front, OutstandingManual(front, owner), OutstandingManual(es, owner));
  }

  /** A last entry that reverses an operator payout takes that payout out. */
  lemma {:induction false} OutstandingDrops(es: seq<Entry>, owner: string)
    requires es != [] && ShapeOk(es) && OperatorOk(es)
    requires var e := es[|es| - 1]; e.reverses.Some? && !e.byStripe && e.reverses.value < |es| && es[e.reverses.value].kind == Payout
    ensures var e := es[|es| - 1];
            (Sum(es[..|es| - 1], OutstandingManual(es, owner))
             == Sum(es[..|es| - 1], OutstandingManual(es[..|es| - 1], owner)) + (if e.owner == owner then e.cents else 0))
  {
    var n := |es| - 1;
    var front, e := es[..n], es[n];
    assert EntryOk(es, n);
    var k := e.reverses.value;
    assert EntryOk(es, k);
    NotYetReversed(es);
    ReversedInFront(es, k);
    forall i | 0 <= i < n && i != k
      ensures OutstandingManual(front, owner)(front[i]) == OutstandingManual(es, owner)(front[i])
    {
      ReversedInFront(es, i);
    }
    SumExcept(front, OutstandingManual(front, owner), OutstandingManual(es, owner), k);
  }

  /** Reversing cancels: over any well-shaped ledger the operator payouts with their
      reversals are worth the payouts that no entry reverses. */
  lemma {:induction false} ManualReversalsCancel(es: seq<Entry>, owner: string)
    requires ShapeOk(es) && OperatorOk(es)
    ensures Sum(es, ManualSide(es, owner)) == Sum(es, OutstandingManual(es, owner))
  {
    if es != [] {
      var e := es[|es| - 1];
      assert EntryOk(es, |es| - 1);
      ShapeOfFront(es);
      ManualReversalsCancel(es[..|es| - 1], owner);
      ManualSideOfFront(es, owner);
      NothingReversesLast(es);
      if e.reverses.Some? && es[e.reverses.value].kind == Payout && !e.byStripe {
        OutstandingDrops(es, owner);
      } else {
        OutstandingUnmoved(es, owner);
      }
    }
  }

  lemma {:induction false} NothingReversesLast(es: seq<Entry>)
    requires es != [] && ShapeOk(es)
    ensures !AlreadyReversed(es, es[|es| - 1].id)
  {
    forall d | d in es
      ensures d.reverses != Some(es[|es| - 1].id)
    {
      var i :| 0 <= i < |es| && es[i] == d;
      assert EntryOk(es, i) && EntryOk(es, |es| - 1);
    }
  }

  lemma {:induction false} NotYetReversed(es: seq<Entry>)
    requires es != [] && ShapeOk(es) && OperatorOk(es)
    requires var e := es[|es| - 1]; e.reverses.Some? && !e.byStripe
    ensures !AlreadyReversed(es[..|es| - 1], es[|es| - 1].reverses.value)
  {
    var n := |es| - 1;
    forall d | d in es[..n]
      ensures d.reverses != es[n].reverses
    {
      var i :| 0 <= i < n && es[i] == d;
      assert EntryOk(es, i) && EntryOk(es, n);
    }
  }

  lemma {:induction false} ReversedInFront(es: seq<Entry>, i: nat)
    requires es != [] && ShapeOk(es) && i < |es| - 1
    ensures AlreadyReversed(es, es[i].id) <==> AlreadyReversed(es[..|es| - 1], es[i].id) || es[|es| - 1].reverses == Some(i)
  {
    assert EntryOk(es, i);
    assert es == es[..|es| - 1] + [es[|es| - 1]];
  }

  /** Paid money: unreversed operator payouts plus the jobs paid and not returned. */
  lemma {:induction false} PaidCentsMeaning(b: Book, owner: string)
    requires Valid(b)
    ensures PaidCents(b.entries, owner)
         == UnreversedManualPayouts(b.entries, owner) + SumJobs(b.jobs, PaidOutOf(owner))
  {
    var es := b.entries;
    assert OwnerOk(es, b.jobs, owner);
    forall e | e in es
      ensures PaidSide(es, owner)(e) == ManualSide(es, owner)(e) + StripePaidBy(owner)(e)
    {
      var i :| 0 <= i < |es| && es[i] == e;
      assert EntryOk(es, i);
    }
    SumSplit(es, PaidSide(es, owner), ManualSide(es, owner), StripePaidBy(owner));
    ManualReversalsCancel(es, owner);
  }

  /** Conservation: an owner's balances are the credited money less what was paid and less
      what unreleased payout jobs reserve. */
  lemma {:induction false} Conserved(b: Book, owner: string)
    requires Valid(b)
    ensures CombinedBalance(b.entries, owner)
         == Credited(b.entries, owner) - PaidCents(b.entries, owner) - SumJobs(b.jobs, UnreleasedOf(owner))
  {
    var es := b.entries;
    assert OwnerOk(es, b.jobs, owner);
    CombinedIsOwned(es, owner);
    SumSplit(es, OwnedBy(owner), ReservedBy(owner), NotReserved(es, owner));
    SumSplit(es, NotReserved(es, owner), PaidSide(es, owner), CreditSide(es, owner));
  }
}
