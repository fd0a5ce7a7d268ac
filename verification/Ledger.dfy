/** The append-only money ledger of src/earn.ts: integer cents, immutable entries,
    structured settlement references. Entry identifiers are drawn fresh; here an
    entry's identifier is its position in the ledger. */
module Ledger {
  import opened Basics

  datatype Source = Referral | Exchange | Marketplace

  datatype Kind = Earning | Adjustment | Payout | Reversal | Hold | Release

  /** One constructor per reference prefix the program writes. `Manual` is the text an
      operator types. */
  datatype Reference =
    | Manual(text: string)
    | HostingFee(member: string, month: nat)
    | Rebate(month: nat, member: string)
    | ReversalOf(entry: nat)
    | HoldOf(job: nat, source: Source)
    | ReleaseOf(job: nat, source: Source)
    | PayoutOf(job: nat, source: Source)
    | ReturnOf(job: nat, source: Source)
    | InvoiceOf(row: string)
    | CheckoutOf(row: string)
    | AdjustOf(row: string)
    | RateOf(row: string)

  datatype Entry = Entry(
    id: nat, owner: string, source: Source, kind: Kind, cents: int, period: nat,
    reference: Reference, note: string, byStripe: bool, reverses: Option<nat>)

  type Measure = Entry -> int

  /** The sum of a measure over the ledger: `filter` followed by `reduce`. */
  function Sum(es: seq<Entry>, f: Measure): int {
    if es == [] then 0 else Sum(es[..|es| - 1], f) + f(es[|es| - 1])
  }

  lemma {:induction false} SumAppend(es: seq<Entry>, fs: seq<Entry>, f: Measure)
    ensures Sum(es + fs, f) == Sum(es, f) + Sum(fs, f)
  {
    if fs == [] {
      assert es + fs == es;
    } else {
      var front := fs[..|fs| - 1];
      SumAppend(es, front, f);
      assert (es + fs)[..|es + fs| - 1] == es + front;
    }
  }

  lemma {:induction false} SumOne(e: Entry, f: Measure)
    ensures Sum([e], f) == f(e)
  {
    assert Sum([], f) == 0 && [e][..0] == [];
  }

  lemma {:induction false} SumTwo(d: Entry, e: Entry, f: Measure)
    ensures Sum([d, e], f) == f(d) + f(e)
  {
    assert [d, e] == [d] + [e];
    SumAppend([d], [e], f);
    SumOne(d, f);
    SumOne(e, f);
  }

  lemma {:induction false} SumSplit(es: seq<Entry>, f: Measure, g: Measure, h: Measure)
    requires forall e :: e in es ==> f(e) == g(e) + h(e)
    ensures Sum(es, f) == Sum(es, g) + Sum(es, h)
  {
    if es != [] {
      SumSplit(es[..|es| - 1], f, g, h);
    }
  }

  lemma {:induction false} SumSame(es: seq<Entry>, f: Measure, g: Measure)
    requires forall e :: e in es ==> f(e) == g(e)
    ensures Sum(es, f) == Sum(es, g)
  {
    if es != [] {
      SumSame(es[..|es| - 1], f, g);
    }
  }

  /** Two measures that agree except on the entry at position k. */
  lemma {:induction false} SumExcept(es: seq<Entry>, f: Measure, g: Measure, k: nat)
    requires k < |es|
    requires forall i | 0 <= i < |es| && i != k :: f(es[i]) == g(es[i])
    ensures Sum(es, f) == Sum(es, g) + f(es[k]) - g(es[k])
  {
    var front := es[..|es| - 1];
    if k == |front| {
      SumSame(front, f, g);
    } else {
      SumExcept(front, f, g, k);
    }
  }

  lemma {:induction false} SumBound(es: seq<Entry>, f: Measure, g: Measure)
    requires forall e :: e in es ==> f(e) <= g(e)
    ensures Sum(es, f) <= Sum(es, g)
  {
    if es != [] {
      SumBound(es[..|es| - 1], f, g);
    }
  }

  /** `a + b`, without empty parts. */
  function Join(a: seq<int>, b: seq<int>): seq<int> { if a == [] then b else if b == [] then a else a + b }

  lemma {:induction false} JoinJoin(a: seq<int>, b: seq<int>, c: seq<int>)
    ensures Join(Join(a, b), c) == Join(a, Join(b, c))
  {
    if a != [] && b != [] && c != [] {
      assert a + b + c == a + (b + c);
    }
  }

  /** The cents of every entry carrying reference r, in ledger order. */
  function Cents(es: seq<Entry>, r: Reference): seq<int> {
    if es == [] then []
    else
      var front := Cents(es[..|es| - 1], r);
      if es[|es| - 1].reference == r then Join(front, [es[|es| - 1].cents]) else front
  }

  lemma {:induction false} CentsAppend(es: seq<Entry>, fs: seq<Entry>, r: Reference)
    ensures Cents(es + fs, r) == Join(Cents(es, r), Cents(fs, r))
  {
    if fs == [] {
      assert es + fs == es;
    } else {
      var front, last := fs[..|fs| - 1], fs[|fs| - 1];
      CentsAppend(es, front, r);
      assert (es + fs)[..|es + fs| - 1] == es + front && (es + fs)[|es + fs| - 1] == last;
      JoinJoin(Cents(es, r), Cents(front, r), [last.cents]);
    }
  }

  lemma {:induction false} CentsAbsent(es: seq<Entry>, r: Reference)
    ensures Cents(es, r) == [] <==> forall e :: e in es ==> e.reference != r
  {
    if es != [] {
      CentsAbsent(es[..|es| - 1], r);
      assert es == es[..|es| - 1] + [es[|es| - 1]];
    }
  }

  /** `entries.find(e => e.reference === r)`, as a position. */
  function FindReference(es: seq<Entry>, r: Reference): (at: Option<nat>)
    ensures at.Some? ==> at.value < |es| && es[at.value].reference == r
  {
    if es == [] then None else
      var front := FindReference(es[..|es| - 1], r);
      if front.Some? then front
      else if es[|es| - 1].reference == r then Some(|es| - 1) else None
  }

  /** It finds the first of the entries that `Cents` lists. */
  lemma {:induction false} FoundFirst(es: seq<Entry>, r: Reference)
    ensures var at := FindReference(es, r);
            && (at.Some? <==> Cents(es, r) != [])
            && (at.Some? ==> es[at.value].cents == Cents(es, r)[0])
  {
    if es != [] {
      FoundFirst(es[..|es| - 1], r);
    }
  }

  function Total(xs: seq<int>): int {
    if xs == [] then 0 else Total(xs[..|xs| - 1]) + xs[|xs| - 1]
  }

  lemma {:induction false} TotalAppend(xs: seq<int>, ys: seq<int>)
    ensures Total(xs + ys) == Total(xs) + Total(ys)
  {
    if ys == [] {
      assert xs + ys == xs;
    } else {
      TotalAppend(xs, ys[..|ys| - 1]);
      assert (xs + ys)[..|xs + ys| - 1] == xs + ys[..|ys| - 1];
    }
  }

  /** What the member view shows as the balance of one program. */
  function BalanceOf(owner: string, source: Source): Measure {
    (e: Entry) => if e.owner == owner && e.source == source then e.cents else 0
  }

  function OwnedBy(owner: string): Measure {
    (e: Entry) => if e.owner == owner then e.cents else 0
  }

  function Balance(es: seq<Entry>, owner: string, source: Source): int {
    Sum(es, BalanceOf(owner, source))
  }

  function CombinedBalance(es: seq<Entry>, owner: string): int {
    Balance(es, owner, Referral) + Balance(es, owner, Exchange) + Balance(es, owner, Marketplace)
  }

  lemma {:induction false} CombinedIsOwned(es: seq<Entry>, owner: string)
    ensures CombinedBalance(es, owner) == Sum(es, OwnedBy(owner))
  {
    if es != [] {
      CombinedIsOwned(es[..|es| - 1], owner);
    }
  }
}
