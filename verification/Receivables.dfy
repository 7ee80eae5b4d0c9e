/** The invoice ledger of an account: it lists only so many rows, and its totals are those of the listed ones. */
module Receivables {
  import opened Payments
  import opened Statements

  const INVOICE_LIMIT := 500
  const PAYMENT_LIMIT := 1000

  // ---- the two listings ----

  /** A result of the invoice query without its limit: all invoices of the account, the latest period first. */
  ghost predicate InvoicesNewestFirst(invoices: seq<Invoice>, account: nat, order: seq<nat>) {
    && Distinct(order)
    && (forall k | 0 <= k < |order| :: order[k] < |invoices| && invoices[order[k]].account == account)
    && (forall x: nat | x < |invoices| && invoices[x].account == account :: x in order)
    && (forall i, j | 0 <= i < j < |order| :: invoices[order[i]].start >= invoices[order[j]].start)
  }

  /** A result of the payment query without its limit: the latest received first, then the latest recorded. */
  ghost predicate PaymentsNewestFirst(payments: seq<Payment>, account: nat, order: seq<nat>) {
    && Distinct(order)
    && (forall k | 0 <= k < |order| :: order[k] < |payments| && payments[order[k]].account == account)
    && (forall x: nat | x < |payments| && payments[x].account == account :: x in order)
    && (forall i, j | 0 <= i < j < |order| ::
          || payments[order[i]].receivedAt > payments[order[j]].receivedAt
          || (payments[order[i]].receivedAt == payments[order[j]].receivedAt && order[i] > order[j]))
  }

  function Listed(order: seq<nat>, limit: nat): (l: seq<nat>)
    ensures l <= order && |l| <= limit
  {
    if |order| <= limit then order else order[..limit]
  }

  function Unlisted(order: seq<nat>, limit: nat): (u: seq<nat>)
    ensures Listed(order, limit) + u == order
  {
    order[|Listed(order, limit)|..]
  }

  lemma ListedMember(invoices: seq<Invoice>, account: nat, order: seq<nat>, k: nat)
    requires InvoicesNewestFirst(invoices, account, order) && k < |Listed(order, INVOICE_LIMIT)|
    ensures Listed(order, INVOICE_LIMIT)[k] < |invoices| && invoices[Listed(order, INVOICE_LIMIT)[k]].account == account
  {
    assert Listed(order, INVOICE_LIMIT)[k] == order[k];
  }

  lemma ListedPayment(payments: seq<Payment>, account: nat, order: seq<nat>, k: nat)
    requires PaymentsNewestFirst(payments, account, order) && k < |Listed(order, PAYMENT_LIMIT)|
    ensures Listed(order, PAYMENT_LIMIT)[k] < |payments| && payments[Listed(order, PAYMENT_LIMIT)[k]].account == account
  {
    assert Listed(order, PAYMENT_LIMIT)[k] == order[k];
  }

  // ---- sums over listings ----

  predicate InRange(ids: seq<nat>, n: nat) {
    forall k | 0 <= k < |ids| :: ids[k] < n
  }

  function SumAt(vals: seq<int>, ids: seq<nat>): int
    requires InRange(ids, |vals|)
  {
    if ids == [] then 0 else SumAt(vals, ids[..|ids| - 1]) + vals[ids[|ids| - 1]]
  }

  lemma {:induction false} SumAtSplit(vals: seq<int>, a: seq<nat>, b: seq<nat>)
    requires InRange(a + b, |vals|)
    ensures InRange(a, |vals|) && InRange(b, |vals|) && SumAt(vals, a + b) == SumAt(vals, a) + SumAt(vals, b)
  {
    assert forall k | 0 <= k < |a| :: a[k] == (a + b)[k];
    assert forall k | 0 <= k < |b| :: b[k] == (a + b)[|a| + k];
    if b == [] {
      assert a + b == a;
    } else {
      var init := b[..|b| - 1];
      assert (a + b)[..|a + b| - 1] == a + init;
      SumAtSplit(vals, a, init);
    }
  }

  lemma {:induction false} SumAtShorter(vals: seq<int>, ids: seq<nat>, n: nat)
    requires n <= |vals| && InRange(ids, n)
    ensures InRange(ids, |vals|) && SumAt(vals[..n], ids) == SumAt(vals, ids)
  {
    if ids != [] {
      SumAtShorter(vals, ids[..|ids| - 1], n);
    }
  }

  lemma {:induction false} SumAtNonNegative(vals: seq<int>, ids: seq<nat>)
    requires InRange(ids, |vals|) && forall i | 0 <= i < |vals| :: vals[i] >= 0
    ensures SumAt(vals, ids) >= 0
  {
    if ids != [] {
      SumAtNonNegative(vals, ids[..|ids| - 1]);
    }
  }

  /** A listing that names every non-zero value once adds up to the whole. */
  lemma {:induction false} EverythingListed(vals: seq<int>, order: seq<nat>)
    requires Distinct(order) && InRange(order, |vals|) && forall x: nat | x < |vals| && vals[x] != 0 :: x in order
    ensures SumAt(vals, order) == Sum(vals)
    decreases |vals|
  {
    if vals == [] {
      assert order == [];
    } else {
      var n := |vals| - 1;
      if n in order {
        var j :| 0 <= j < |order| && order[j] == n;
        var rest := order[..j] + order[j + 1..];
        TakeOut(vals, order, j);
        RestListed(vals, order, j, rest);
        EverythingListed(vals[..n], rest);
        SumAtShorter(vals, rest, n);
      } else {
        assert forall k | 0 <= k < |order| :: order[k] in order;
        EverythingListed(vals[..n], order);
        SumAtShorter(vals, order, n);
      }
    }
  }

  lemma TakeOut(vals: seq<int>, order: seq<nat>, j: nat)
    requires InRange(order, |vals|) && j < |order|
    ensures InRange(order[..j] + order[j + 1..], |vals|)
    ensures SumAt(vals, order) == SumAt(vals, order[..j] + order[j + 1..]) + vals[order[j]]
  {
    assert order == order[..j + 1] + order[j + 1..];
    assert order[..j + 1][..j] == order[..j];
    SumAtSplit(vals, order[..j + 1], order[j + 1..]);
    SumAtSplit(vals, order[..j], order[j + 1..]);
  }

  lemma RestListed(vals: seq<int>, order: seq<nat>, j: nat, rest: seq<nat>)
    requires Distinct(order) && InRange(order, |vals|) && forall x: nat | x < |vals| && vals[x] != 0 :: x in order
    requires j < |order| && order[j] == |vals| - 1 && rest == order[..j] + order[j + 1..]
    ensures Distinct(rest) && InRange(rest, |vals| - 1)
    ensures forall x: nat | x < |vals| - 1 && vals[x] != 0 :: x in rest
  {
    assert forall k | 0 <= k < |rest| :: rest[k] == order[if k < j then k else k + 1];
    forall x: nat | x < |vals| - 1 && vals[x] != 0
      ensures x in rest
    {
      var k :| 0 <= k < |order| && order[k] == x;
      assert rest[if k < j then k else k - 1] == x;
    }
  }

  // ---- what the rows of an account are worth ----

  function PaidOf(invoices: seq<Invoice>, allocs: seq<Allocation>, account: nat): (v: seq<int>)
    ensures |v| == |invoices|
    ensures forall i | 0 <= i < |v| :: v[i] == if invoices[i].account == account then Paid(allocs, i) else 0
  {
    seq(|invoices|, i requires 0 <= i < |invoices| => if invoices[i].account == account then Paid(allocs, i) else 0)
  }

  function DueOf(invoices: seq<Invoice>, allocs: seq<Allocation>, account: nat): (v: seq<int>)
    ensures |v| == |invoices|
    ensures forall i | 0 <= i < |v| ::
      v[i] == if invoices[i].live && invoices[i].account == account then invoices[i].amount - Paid(allocs, i) else 0
  {
    seq(|invoices|, i requires 0 <= i < |invoices| =>
      if invoices[i].live && invoices[i].account == account then invoices[i].amount - Paid(allocs, i) else 0)
  }

  function ReceivedOf(payments: seq<Payment>, account: nat): (v: seq<int>)
    ensures |v| == |payments|
    ensures forall i | 0 <= i < |v| :: v[i] == if payments[i].account == account then payments[i].amount else 0
  {
    seq(|payments|, i requires 0 <= i < |payments| => if payments[i].account == account then payments[i].amount else 0)
  }

  lemma {:induction false} WholePaid(invoices: seq<Invoice>, allocs: seq<Allocation>, account: nat, n: nat)
    requires n <= |invoices|
    ensures Sum(PaidOf(invoices, allocs, account)[..n]) == PaidInAll(invoices, allocs, account, n)
  {
    if n > 0 {
      WholePaid(invoices, allocs, account, n - 1);
      assert PaidOf(invoices, allocs, account)[..n][..n - 1] == PaidOf(invoices, allocs, account)[..n - 1];
    }
  }

  lemma {:induction false} WholeDue(invoices: seq<Invoice>, allocs: seq<Allocation>, account: nat, n: nat)
    requires n <= |invoices|
    ensures Sum(DueOf(invoices, allocs, account)[..n]) == Due(invoices, allocs, account, n)
  {
    if n > 0 {
      WholeDue(invoices, allocs, account, n - 1);
      assert DueOf(invoices, allocs, account)[..n][..n - 1] == DueOf(invoices, allocs, account)[..n - 1];
    }
  }

  lemma {:induction false} WholeReceived(payments: seq<Payment>, account: nat, n: nat)
    requires n <= |payments|
    ensures Sum(ReceivedOf(payments, account)[..n]) == Received(payments, account, n)
  {
    if n > 0 {
      WholeReceived(payments, account, n - 1);
      assert ReceivedOf(payments, account)[..n][..n - 1] == ReceivedOf(payments, account)[..n - 1];
    }
  }

  // ---- the reported totals ----

  ghost function Outstanding(invoices: seq<Invoice>, allocs: seq<Allocation>, account: nat, order: seq<nat>): int
    requires InvoicesNewestFirst(invoices, account, order)
  {
    SumAt(DueOf(invoices, allocs, account), Listed(order, INVOICE_LIMIT))
  }

  ghost function Unallocated(invoices: seq<Invoice>, payments: seq<Payment>, allocs: seq<Allocation>, account: nat,
                             invoiceOrder: seq<nat>, paymentOrder: seq<nat>): int
    requires InvoicesNewestFirst(invoices, account, invoiceOrder)
    requires PaymentsNewestFirst(payments, account, paymentOrder)
  {
    SumAt(ReceivedOf(payments, account), Listed(paymentOrder, PAYMENT_LIMIT))
    - SumAt(PaidOf(invoices, allocs, account), Listed(invoiceOrder, INVOICE_LIMIT))
  }

  // What the unlisted rows would have added.

  ghost function DueUnlisted(invoices: seq<Invoice>, allocs: seq<Allocation>, account: nat, order: seq<nat>): int
    requires InvoicesNewestFirst(invoices, account, order)
  {
    SumAt(DueOf(invoices, allocs, account), Unlisted(order, INVOICE_LIMIT))
  }

  ghost function PaidUnlisted(invoices: seq<Invoice>, allocs: seq<Allocation>, account: nat, order: seq<nat>): int
    requires InvoicesNewestFirst(invoices, account, order)
  {
    SumAt(PaidOf(invoices, allocs, account), Unlisted(order, INVOICE_LIMIT))
  }

  ghost function ReceivedUnlisted(payments: seq<Payment>, account: nat, order: seq<nat>): int
    requires PaymentsNewestFirst(payments, account, order)
  {
    SumAt(ReceivedOf(payments, account), Unlisted(order, PAYMENT_LIMIT))
  }

  lemma ListingIsWhole(vals: seq<int>, order: seq<nat>, limit: nat)
    requires Distinct(order) && InRange(order, |vals|) && forall x: nat | x < |vals| && vals[x] != 0 :: x in order
    ensures InRange(Listed(order, limit), |vals|) && InRange(Unlisted(order, limit), |vals|)
    ensures SumAt(vals, Listed(order, limit)) + SumAt(vals, Unlisted(order, limit)) == Sum(vals)
  {
    EverythingListed(vals, order);
    SumAtSplit(vals, Listed(order, limit), Unlisted(order, limit));
  }

  lemma ListedDue(invoices: seq<Invoice>, allocs: seq<Allocation>, account: nat, order: seq<nat>)
    requires InvoicesNewestFirst(invoices, account, order) && WithinOwed(invoices, allocs)
    ensures Outstanding(invoices, allocs, account, order)
         == Due(invoices, allocs, account, |invoices|) - DueUnlisted(invoices, allocs, account, order)
    ensures Outstanding(invoices, allocs, account, order) >= 0 && DueUnlisted(invoices, allocs, account, order) >= 0
  {
    var vals := DueOf(invoices, allocs, account);
    ListingIsWhole(vals, order, INVOICE_LIMIT);
    WholeDue(invoices, allocs, account, |invoices|);
    assert vals[..|vals|] == vals;
    SumAtNonNegative(vals, Listed(order, INVOICE_LIMIT));
    SumAtNonNegative(vals, Unlisted(order, INVOICE_LIMIT));
  }

  /** The reported totals against what the account owes and has in credit: they differ by exactly what the
      unlisted rows hold, and agree when everything is listed. */
  lemma LedgerTotals(lines: seq<Line>, invoices: seq<Invoice>, payments: seq<Payment>, allocs: seq<Allocation>,
                     account: nat, invoiceOrder: seq<nat>, paymentOrder: seq<nat>)
    requires Consistent(lines, invoices, payments, allocs)
    requires InvoicesNewestFirst(invoices, account, invoiceOrder)
    requires PaymentsNewestFirst(payments, account, paymentOrder)
    ensures Outstanding(invoices, allocs, account, invoiceOrder)
         == Due(invoices, allocs, account, |invoices|) - DueUnlisted(invoices, allocs, account, invoiceOrder)
    ensures 0 <= Outstanding(invoices, allocs, account, invoiceOrder) <= Due(invoices, allocs, account, |invoices|)
    ensures Unallocated(invoices, payments, allocs, account, invoiceOrder, paymentOrder)
         == Credit(payments, allocs, account, |payments|)
            - ReceivedUnlisted(payments, account, paymentOrder) + PaidUnlisted(invoices, allocs, account, invoiceOrder)
    ensures |invoiceOrder| <= INVOICE_LIMIT ==> DueUnlisted(invoices, allocs, account, invoiceOrder) == 0
    ensures |invoiceOrder| <= INVOICE_LIMIT ==> PaidUnlisted(invoices, allocs, account, invoiceOrder) == 0
    ensures |paymentOrder| <= PAYMENT_LIMIT ==> ReceivedUnlisted(payments, account, paymentOrder) == 0
    ensures Credit(payments, allocs, account, |payments|) >= 0
  {
    ListedDue(invoices, allocs, account, invoiceOrder);
    ListedPaid(invoices, allocs, account, invoiceOrder);
    ListedReceived(payments, account, paymentOrder);
    BothWaysOfCounting(invoices, payments, allocs, account);
    CreditIsRest(payments, allocs, account, |payments|);
  }

  lemma ListedPaid(invoices: seq<Invoice>, allocs: seq<Allocation>, account: nat, order: seq<nat>)
    requires InvoicesNewestFirst(invoices, account, order)
    ensures InRange(Listed(order, INVOICE_LIMIT), |invoices|)
    ensures SumAt(PaidOf(invoices, allocs, account), Listed(order, INVOICE_LIMIT))
         == PaidInAll(invoices, allocs, account, |invoices|) - PaidUnlisted(invoices, allocs, account, order)
  {
    var vals := PaidOf(invoices, allocs, account);
    ListingIsWhole(vals, order, INVOICE_LIMIT);
    WholePaid(invoices, allocs, account, |invoices|);
    assert vals[..|vals|] == vals;
  }

  lemma ListedReceived(payments: seq<Payment>, account: nat, order: seq<nat>)
    requires PaymentsNewestFirst(payments, account, order)
    ensures InRange(Listed(order, PAYMENT_LIMIT), |payments|)
    ensures SumAt(ReceivedOf(payments, account), Listed(order, PAYMENT_LIMIT))
         == Received(payments, account, |payments|) - ReceivedUnlisted(payments, account, order)
  {
    var vals := ReceivedOf(payments, account);
    ListingIsWhole(vals, order, PAYMENT_LIMIT);
    WholeReceived(payments, account, |payments|);
    assert vals[..|vals|] == vals;
  }

  /** Add up the listed invoices; a deleted one is taken out again. */
  method AddInvoices(invoices: seq<Invoice>, ghost payments: seq<Payment>, allocs: seq<Allocation>, account: nat,
                     order: seq<nat>)
    returns (invoiced: int, paidOff: int)
    requires InvoicesNewestFirst(invoices, account, order) && Sound(invoices, payments, allocs)
    ensures invoiced - paidOff == Outstanding(invoices, allocs, account, order)
    ensures paidOff == SumAt(PaidOf(invoices, allocs, account), Listed(order, INVOICE_LIMIT))
  {
    var listed := Listed(order, INVOICE_LIMIT);
    forall k | 0 <= k < |listed|
      ensures listed[k] < |invoices| && invoices[listed[k]].account == account
    {
      ListedMember(invoices, account, order, k);
    }
    invoiced, paidOff := AddListed(invoices, payments, allocs, account, listed);
  }

  method AddListed(invoices: seq<Invoice>, ghost payments: seq<Payment>, allocs: seq<Allocation>, ghost account: nat,
                   listed: seq<nat>)
    returns (invoiced: int, paidOff: int)
    requires Sound(invoices, payments, allocs) && InRange(listed, |invoices|)
    requires forall k | 0 <= k < |listed| :: invoices[listed[k]].account == account
    ensures invoiced - paidOff == SumAt(DueOf(invoices, allocs, account), listed)
    ensures paidOff == SumAt(PaidOf(invoices, allocs, account), listed)
  {
    invoiced, paidOff := 0, 0;
    ghost var due, paid := DueOf(invoices, allocs, account), PaidOf(invoices, allocs, account);
    for k := 0 to |listed|
      invariant invoiced - paidOff == SumAt(due, listed[..k]) && paidOff == SumAt(paid, listed[..k])
    {
      SumAtNext(due, listed, k);
      SumAtNext(paid, listed, k);
      var a, p := AddOne(invoices, payments, allocs, account, listed[k]);
      invoiced, paidOff := invoiced + a, paidOff + p;
    }
    assert listed[..|listed|] == listed;
  }

  /** What one listed invoice adds to the totals. */
  method AddOne(invoices: seq<Invoice>, ghost payments: seq<Payment>, allocs: seq<Allocation>, ghost account: nat,
                i: nat)
    returns (invoiced: int, paidOff: int)
    requires i < |invoices| && invoices[i].account == account && Sound(invoices, payments, allocs)
    ensures paidOff == PaidOf(invoices, allocs, account)[i]
    ensures invoiced - paidOff == DueOf(invoices, allocs, account)[i]
  {
    invoiced, paidOff := invoices[i].amount, Paid(allocs, i);
    if !invoices[i].live {
      invoiced := invoiced - invoices[i].amount;
      UnpaidIff(allocs, i);
    }
  }

  lemma SumAtNext(vals: seq<int>, ids: seq<nat>, k: nat)
    requires InRange(ids, |vals|) && k < |ids|
    ensures SumAt(vals, ids[..k + 1]) == SumAt(vals, ids[..k]) + vals[ids[k]]
  {
    assert ids[..k + 1][..k] == ids[..k];
  }

  method AddPayments(payments: seq<Payment>, account: nat, order: seq<nat>) returns (received: int)
    requires PaymentsNewestFirst(payments, account, order)
    ensures received == SumAt(ReceivedOf(payments, account), Listed(order, PAYMENT_LIMIT))
  {
    received := 0;
    var listed := Listed(order, PAYMENT_LIMIT);
    ghost var vals := ReceivedOf(payments, account);
    assert InRange(listed, |payments|);
    for k := 0 to |listed|
      invariant received == SumAt(vals, listed[..k])
    {
      ListedPayment(payments, account, order, k);
      SumAtNext(vals, listed, k);
      received := received + payments[listed[k]].amount;
    }
    assert listed[..|listed|] == listed;
  }
}
