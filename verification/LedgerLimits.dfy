/** Accounts with more rows than the invoice ledger lists. */
module LedgerLimits {
  import opened Payments
  import opened Statements
  import opened Receivables

  const NO_MOVES := Statement(0, 0, 0, 0, 0, 0, 0)

  function Backwards(n: nat): (ids: seq<nat>)
    ensures |ids| == n && forall i | 0 <= i < n :: ids[i] == n - 1 - i
  {
    seq(n, i requires 0 <= i < n => n - 1 - i)
  }

  lemma BackwardsListsAll(n: nat)
    ensures Distinct(Backwards(n)) && forall x: nat | x < n :: x in Backwards(n)
  {
    forall x: nat | x < n
      ensures x in Backwards(n)
    {
      assert Backwards(n)[n - 1 - x] == x;
    }
  }

  lemma {:induction false} SumOfOnes(vals: seq<int>, ids: seq<nat>)
    requires InRange(ids, |vals|) && forall i | 0 <= i < |vals| :: vals[i] == 1
    ensures SumAt(vals, ids) == |ids|
  {
    if ids != [] {
      SumOfOnes(vals, ids[..|ids| - 1]);
    }
  }

  // ---- one invoice, many payments ----

  function OneInvoice(amount: int): seq<Invoice> {
    [Invoice(7, 0, 1, NO_MOVES, amount, true)]
  }

  /** n payments of one unit, each received later than the one before. */
  function Units(n: nat): (ps: seq<Payment>)
    ensures |ps| == n && forall i | 0 <= i < n :: ps[i] == Payment(7, 1, i)
  {
    seq(n, i => Payment(7, 1, i))
  }

  /** The units all go to invoice 0. */
  function UnitsPaid(n: nat): (al: seq<Allocation>)
    ensures |al| == n && forall i | 0 <= i < n :: al[i] == Allocation(i, 0, 1)
  {
    seq(n, i requires 0 <= i < n => Allocation(i, 0, 1))
  }

  lemma {:induction false} UnitsSpent(n: nat, p: nat)
    ensures Paid(UnitsPaid(n), 0) == n && Spent(UnitsPaid(n), p) == if p < n then 1 else 0
  {
    if n > 0 {
      UnitsSpent(n - 1, p);
      assert UnitsPaid(n)[..n - 1] == UnitsPaid(n - 1);
    }
  }

  lemma UnitsWithin(n: nat)
    ensures WithinOwed(OneInvoice(n), UnitsPaid(n)) && WithinPaid(Units(n), UnitsPaid(n))
  {
    UnitsSpent(n, 0);
    forall p | 0 <= p < n
      ensures Spent(UnitsPaid(n), p) == 1
    {
      UnitsSpent(n, p);
    }
  }

  lemma UnitsSound(n: nat)
    ensures Sound(OneInvoice(n), Units(n), UnitsPaid(n)) && PeriodsDisjoint(OneInvoice(n))
  {
  }

  lemma UnitsConsistent(n: nat, invoices: seq<Invoice>, payments: seq<Payment>, allocs: seq<Allocation>)
    requires invoices == OneInvoice(n) && payments == Units(n) && allocs == UnitsPaid(n)
    ensures Consistent([], invoices, payments, allocs)
  {
    UnitsWithin(n);
    UnitsSound(n);
  }

  lemma UnitsListed(n: nat, order: seq<nat>)
    requires order == Backwards(n)
    ensures PaymentsNewestFirst(Units(n), 7, order)
  {
    BackwardsListsAll(n);
  }

  lemma UnitsReceived(n: nat, order: seq<nat>)
    requires n > PAYMENT_LIMIT && order == Backwards(n) && PaymentsNewestFirst(Units(n), 7, order)
    ensures SumAt(ReceivedOf(Units(n), 7), Listed(order, PAYMENT_LIMIT)) == PAYMENT_LIMIT
  {
    SumOfOnes(ReceivedOf(Units(n), 7), Listed(order, PAYMENT_LIMIT));
  }

  lemma UnitsAllocated(n: nat)
    ensures InvoicesNewestFirst(OneInvoice(n), 7, [0])
    ensures SumAt(PaidOf(OneInvoice(n), UnitsPaid(n), 7), Listed([0], INVOICE_LIMIT)) == n
  {
    UnitsSpent(n, 0);
    var paid := PaidOf(OneInvoice(n), UnitsPaid(n), 7);
    assert [0][..0] == [] && paid[0] == n;
    assert SumAt(paid, [0]) == n;
  }

  lemma {:induction false} UnitsCredit(n: nat, m: nat)
    requires m <= n
    ensures Credit(Units(n), UnitsPaid(n), 7, m) == 0
  {
    if m > 0 {
      UnitsCredit(n, m - 1);
      UnitsSpent(n, m - 1);
    }
  }

  /** An invoice paid off by more than 1000 payments of one unit: nothing is in credit, and the ledger
      reports a negative credit of all the units beyond the limit. */
  lemma ManyPayments(n: nat)
    requires n > PAYMENT_LIMIT
    ensures Consistent([], OneInvoice(n), Units(n), UnitsPaid(n))
    ensures InvoicesNewestFirst(OneInvoice(n), 7, [0]) && PaymentsNewestFirst(Units(n), 7, Backwards(n))
    ensures Unallocated(OneInvoice(n), Units(n), UnitsPaid(n), 7, [0], Backwards(n)) == PAYMENT_LIMIT - n
    ensures Credit(Units(n), UnitsPaid(n), 7, n) == 0
  {
    UnitsConsistent(n, OneInvoice(n), Units(n), UnitsPaid(n));
    UnitsListed(n, Backwards(n));
    UnitsReceived(n, Backwards(n));
    UnitsAllocated(n);
    UnitsCredit(n, n);
  }

  // ---- many invoices ----

  /** n unpaid invoices of one unit, for one period after the other. */
  function UnitInvoices(n: nat): (inv: seq<Invoice>)
    ensures |inv| == n && forall i | 0 <= i < n :: inv[i] == Invoice(7, i, i + 1, NO_MOVES, 1, true)
  {
    seq(n, i => Invoice(7, i, i + 1, NO_MOVES, 1, true))
  }

  lemma UnitInvoicesListed(n: nat, order: seq<nat>)
    requires order == Backwards(n)
    ensures InvoicesNewestFirst(UnitInvoices(n), 7, order)
  {
    BackwardsListsAll(n);
  }

  lemma UnitInvoicesConsistent(n: nat, invoices: seq<Invoice>)
    requires invoices == UnitInvoices(n)
    ensures Consistent([], invoices, [], [])
  {
    assert PeriodsDisjoint(invoices);
    assert WithinOwed(invoices, []);
  }

  lemma {:induction false} UnitInvoicesDue(n: nat, m: nat)
    requires m <= n
    ensures Due(UnitInvoices(n), [], 7, m) == m
  {
    if m > 0 {
      UnitInvoicesDue(n, m - 1);
    }
  }

  lemma UnitInvoicesReported(n: nat, order: seq<nat>)
    requires n > INVOICE_LIMIT && order == Backwards(n) && InvoicesNewestFirst(UnitInvoices(n), 7, order)
    ensures Outstanding(UnitInvoices(n), [], 7, order) == INVOICE_LIMIT
  {
    SumOfOnes(DueOf(UnitInvoices(n), [], 7), Listed(order, INVOICE_LIMIT));
  }

  /** More than 500 unpaid invoices: the ledger reports 500 of them as outstanding. */
  lemma ManyInvoices(n: nat)
    requires n > INVOICE_LIMIT
    ensures Consistent([], UnitInvoices(n), [], []) && InvoicesNewestFirst(UnitInvoices(n), 7, Backwards(n))
    ensures Outstanding(UnitInvoices(n), [], 7, Backwards(n)) == INVOICE_LIMIT
    ensures Due(UnitInvoices(n), [], 7, n) == n
  {
    UnitInvoicesListed(n, Backwards(n));
    UnitInvoicesConsistent(n, UnitInvoices(n));
    UnitInvoicesReported(n, Backwards(n));
    UnitInvoicesDue(n, n);
  }
}
