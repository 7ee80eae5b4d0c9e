/** Invoices, payments and allocations as rows, and what the rows must satisfy together. */
module Statements {
  import opened Ledger

  /** A row of the account ledger with its time. */
  datatype Line = Line(account: nat, kind: Kind, amount: int, at: int)

  datatype Statement = Statement(opening: int, topups: int, charges: int, costs: int, adjustments: int, refunds: int,
                                 closing: int)

  /** The period is [start, end). */
  datatype Invoice = Invoice(account: nat, start: int, end: int, statement: Statement, amount: int, live: bool)

  datatype Payment = Payment(account: nat, amount: int, receivedAt: int)

  datatype Allocation = Allocation(payment: nat, invoice: nat, amount: int)

  // ---- periods ----

  predicate Covers(inv: Invoice, account: nat, t: int) {
    inv.live && inv.account == account && inv.start <= t < inv.end
  }

  predicate Overlaps(inv: Invoice, account: nat, start: int, end: int) {
    inv.account == account && inv.start < end && inv.end > start
  }

  /** Periods overlap exactly when they share an instant. */
  lemma OverlapsIff(inv: Invoice, account: nat, start: int, end: int)
    requires inv.start < inv.end && start < end
    ensures Overlaps(inv, account, start, end)
       <==> inv.account == account && exists t :: InPeriod(t, inv.start, inv.end) && InPeriod(t, start, end)
  {
    if Overlaps(inv, account, start, end) {
      var t := if inv.start < start then start else inv.start;
      assert InPeriod(t, inv.start, inv.end) && InPeriod(t, start, end);
    }
  }

  predicate InPeriod(t: int, start: int, end: int) {
    start <= t < end
  }

  ghost predicate PeriodsDisjoint(invoices: seq<Invoice>) {
    && (forall i | 0 <= i < |invoices| :: invoices[i].start < invoices[i].end)
    && (forall i, j {:trigger Apart(invoices[i], invoices[j])} ::
         0 <= i < j < |invoices| ==> Apart(invoices[i], invoices[j]))
  }

  /** Two invoices do not cover the same moment of the same account. */
  predicate Apart(a: Invoice, b: Invoice) {
    a.live && b.live && a.account == b.account ==> a.end <= b.start || b.end <= a.start
  }

  /** How many of the first n invoices have a ledger row in their period. */
  function TimesInvoiced(invoices: seq<Invoice>, line: Line, n: nat): nat
    requires n <= |invoices|
  {
    if n == 0 then 0
    else TimesInvoiced(invoices, line, n - 1) + if Covers(invoices[n - 1], line.account, line.at) then 1 else 0
  }

  /** Every ledger row falls in at most one live invoice of its account. */
  lemma {:induction false} InvoicedOnce(invoices: seq<Invoice>, line: Line, n: nat)
    requires PeriodsDisjoint(invoices) && n <= |invoices|
    ensures TimesInvoiced(invoices, line, n) <= 1
    ensures TimesInvoiced(invoices, line, n) == 0 ==>
      forall i | 0 <= i < n :: !Covers(invoices[i], line.account, line.at)
    ensures TimesInvoiced(invoices, line, n) == 1 ==>
      exists i :: 0 <= i < n && Covers(invoices[i], line.account, line.at)
  {
    if n > 0 {
      InvoicedOnce(invoices, line, n - 1);
      if TimesInvoiced(invoices, line, n - 1) == 1 {
        var i :| 0 <= i < n - 1 && Covers(invoices[i], line.account, line.at);
        assert Apart(invoices[i], invoices[n - 1]);
      } else if Covers(invoices[n - 1], line.account, line.at) {
        assert exists i :: 0 <= i < n && Covers(invoices[i], line.account, line.at);
      }
    }
  }

  // ---- the statement of a period ----

  predicate Moves(k: Kind) {
    k != Kind.Reserve && k != Kind.Release
  }

  function SumBefore(lines: seq<Line>, account: nat, t: int): int {
    if lines == [] then 0
    else
      var l := lines[|lines| - 1];
      SumBefore(lines[..|lines| - 1], account, t)
          + if l.account == account && Moves(l.kind) && l.at < t then l.amount else 0
  }

  function SumOf(lines: seq<Line>, account: nat, kind: Kind, start: int, end: int): int {
    if lines == [] then 0
    else
      var l := lines[|lines| - 1];
      SumOf(lines[..|lines| - 1], account, kind, start, end)
      + if l.account == account && l.kind == kind && start <= l.at < end then l.amount else 0
  }

  function StatementOf(lines: seq<Line>, account: nat, start: int, end: int): Statement {
    Statement(
      SumBefore(lines, account, start),
      SumOf(lines, account, Kind.Topup, start, end),
      SumOf(lines, account, Kind.Charge, start, end),
      SumOf(lines, account, Kind.Cost, start, end),
      SumOf(lines, account, Kind.Adjustment, start, end),
      SumOf(lines, account, Kind.Refund, start, end),
      SumBefore(lines, account, end))
  }

  predicate Balances(s: Statement) {
    s.closing == s.opening + s.topups + s.charges + s.costs + s.adjustments + s.refunds
  }

  lemma {:induction false} StatementBalances(lines: seq<Line>, account: nat, start: int, end: int)
    requires start <= end
    ensures Balances(StatementOf(lines, account, start, end))
  {
    if lines != [] {
      StatementBalances(lines[..|lines| - 1], account, start, end);
    }
  }

  /** The sums are those of the lines: a line counts in its own account, and in a period by its kind and time, or
      before an instant when it moves the balance. */
  lemma {:induction false} SumsOfLines(a: seq<Line>, b: seq<Line>, account: nat, kind: Kind, start: int, end: int)
    ensures SumOf(a + b, account, kind, start, end)
         == SumOf(a, account, kind, start, end) + SumOf(b, account, kind, start, end)
    ensures SumBefore(a + b, account, start) == SumBefore(a, account, start) + SumBefore(b, account, start)
    ensures forall l: Line ::
      SumOf([l], account, kind, start, end)
      == if l.account == account && l.kind == kind && start <= l.at < end then l.amount else 0
    ensures forall l: Line ::
      SumBefore([l], account, start)
      == if l.account == account && !l.kind.Reserve? && !l.kind.Release? && l.at < start then l.amount else 0
    decreases |b|
  {
    forall l: Line
      ensures SumOf([l], account, kind, start, end)
           == if l.account == account && l.kind == kind && start <= l.at < end then l.amount else 0
      ensures SumBefore([l], account, start)
           == if l.account == account && !l.kind.Reserve? && !l.kind.Release? && l.at < start then l.amount else 0
    {
      assert [l][..0] == [];
    }
    if b == [] {
      assert a + b == a;
    } else {
      SumsOfLines(a, b[..|b| - 1], account, kind, start, end);
      assert (a + b)[..|a + b| - 1] == a + b[..|b| - 1];
    }
  }

  /** Two periods in a row: the second opens where the first closes, and every sum of the whole is the sum of both. */
  lemma {:induction false} PeriodsAdd(lines: seq<Line>, account: nat, kind: Kind, start: int, mid: int, end: int)
    requires start <= mid <= end
    ensures StatementOf(lines, account, mid, end).opening == StatementOf(lines, account, start, mid).closing
    ensures SumOf(lines, account, kind, start, end)
         == SumOf(lines, account, kind, start, mid) + SumOf(lines, account, kind, mid, end)
  {
    if lines != [] {
      PeriodsAdd(lines[..|lines| - 1], account, kind, start, mid, end);
    }
  }

  /** Usage is posted as a debit. */
  ghost predicate UsageIsDebit(lines: seq<Line>) {
    forall i | 0 <= i < |lines| && (lines[i].kind.Charge? || lines[i].kind.Cost?) :: lines[i].amount <= 0
  }

  lemma {:induction false} UsageSumIsDebit(lines: seq<Line>, account: nat, kind: Kind, start: int, end: int)
    requires UsageIsDebit(lines) && (kind.Charge? || kind.Cost?)
    ensures SumOf(lines, account, kind, start, end) <= 0
  {
    if lines != [] {
      UsageSumIsDebit(lines[..|lines| - 1], account, kind, start, end);
    }
  }

  // ---- allocations ----

  function Paid(allocs: seq<Allocation>, invoice: nat): int {
    if allocs == [] then 0
    else
      var a := allocs[|allocs| - 1];
      Paid(allocs[..|allocs| - 1], invoice) + if a.invoice == invoice then a.amount else 0
  }

  function Spent(allocs: seq<Allocation>, payment: nat): int {
    if allocs == [] then 0
    else
      var a := allocs[|allocs| - 1];
      Spent(allocs[..|allocs| - 1], payment) + if a.payment == payment then a.amount else 0
  }

  /** Every allocation is positive and joins a payment with a live invoice of the same account. */
  ghost predicate Sound(invoices: seq<Invoice>, payments: seq<Payment>, allocs: seq<Allocation>) {
    forall i | 0 <= i < |allocs| ::
      && allocs[i].amount > 0
      && allocs[i].invoice < |invoices| && invoices[allocs[i].invoice].live
      && allocs[i].payment < |payments|
      && invoices[allocs[i].invoice].account == payments[allocs[i].payment].account
  }

  ghost predicate WithinOwed(invoices: seq<Invoice>, allocs: seq<Allocation>) {
    forall i | 0 <= i < |invoices| :: 0 <= Paid(allocs, i) <= invoices[i].amount
  }

  ghost predicate WithinPaid(payments: seq<Payment>, allocs: seq<Allocation>) {
    forall p | 0 <= p < |payments| :: 0 <= Spent(allocs, p) <= payments[p].amount
  }

  /** What holds between any two operations. */
  ghost predicate Consistent(lines: seq<Line>, invoices: seq<Invoice>, payments: seq<Payment>,
                             allocations: seq<Allocation>) {
    && UsageIsDebit(lines)
    && PeriodsDisjoint(invoices)
    && (forall i | 0 <= i < |invoices| :: Balances(invoices[i].statement))
    && Sound(invoices, payments, allocations)
    && WithinOwed(invoices, allocations)
    && WithinPaid(payments, allocations)
  }

  /** An invoice counts as unpaid exactly when no allocation names it. */
  lemma {:induction false} UnpaidIff(allocs: seq<Allocation>, invoice: nat)
    requires forall i | 0 <= i < |allocs| :: allocs[i].amount > 0
    ensures Paid(allocs, invoice) >= 0
    ensures Paid(allocs, invoice) == 0 <==> forall i | 0 <= i < |allocs| :: allocs[i].invoice != invoice
  {
    if allocs != [] {
      var init := allocs[..|allocs| - 1];
      UnpaidIff(init, invoice);
      if forall i | 0 <= i < |allocs| :: allocs[i].invoice != invoice {
        assert forall i | 0 <= i < |init| :: init[i].invoice != invoice;
      } else if Paid(allocs, invoice) == 0 {
        assert allocs[|init|].invoice != invoice;
        assert forall i | 0 <= i < |init| :: init[i] == allocs[i];
      }
    }
  }

  lemma {:induction false} UnspentIfUnnamed(allocs: seq<Allocation>, payment: nat)
    requires forall i | 0 <= i < |allocs| :: allocs[i].payment != payment
    ensures Spent(allocs, payment) == 0
  {
    if allocs != [] {
      UnspentIfUnnamed(allocs[..|allocs| - 1], payment);
    }
  }

  // ---- account totals ----

  /** Sum over the account's invoices among the first n: what they are paid, and what the live ones still owe. */
  function PaidInAll(invoices: seq<Invoice>, allocs: seq<Allocation>, account: nat, n: nat): int
    requires n <= |invoices|
  {
    if n == 0 then 0
    else
      PaidInAll(invoices, allocs, account, n - 1)
      + if invoices[n - 1].account == account then Paid(allocs, n - 1) else 0
  }

  function Due(invoices: seq<Invoice>, allocs: seq<Allocation>, account: nat, n: nat): int
    requires n <= |invoices|
  {
    if n == 0 then 0
    else
      Due(invoices, allocs, account, n - 1)
      + if invoices[n - 1].live && invoices[n - 1].account == account then
          invoices[n - 1].amount - Paid(allocs, n - 1)
        else 0
  }

  function Received(payments: seq<Payment>, account: nat, n: nat): int
    requires n <= |payments|
  {
    if n == 0 then 0
    else Received(payments, account, n - 1) + if payments[n - 1].account == account then payments[n - 1].amount else 0
  }

  /** What the account's payments have not been assigned to any invoice. */
  function Credit(payments: seq<Payment>, allocs: seq<Allocation>, account: nat, n: nat): int
    requires n <= |payments|
  {
    if n == 0 then 0
    else
      Credit(payments, allocs, account, n - 1)
      + if payments[n - 1].account == account then payments[n - 1].amount - Spent(allocs, n - 1) else 0
  }

  function SpentInAll(payments: seq<Payment>, allocs: seq<Allocation>, account: nat, n: nat): int
    requires n <= |payments|
  {
    if n == 0 then 0
    else
      SpentInAll(payments, allocs, account, n - 1)
      + if payments[n - 1].account == account then Spent(allocs, n - 1) else 0
  }

  lemma {:induction false} PaidInAllAppend(invoices: seq<Invoice>, allocs: seq<Allocation>, a: Allocation, account: nat,
                                           n: nat)
    requires n <= |invoices| && a.invoice < |invoices|
    ensures PaidInAll(invoices, allocs + [a], account, n)
         == PaidInAll(invoices, allocs, account, n)
                + if a.invoice < n && invoices[a.invoice].account == account then a.amount else 0
  {
    if n > 0 {
      PaidInAllAppend(invoices, allocs, a, account, n - 1);
      assert (allocs + [a])[..|allocs|] == allocs;
    }
  }

  lemma {:induction false} SpentInAllAppend(payments: seq<Payment>, allocs: seq<Allocation>, a: Allocation,
                                            account: nat, n: nat)
    requires n <= |payments| && a.payment < |payments|
    ensures SpentInAll(payments, allocs + [a], account, n)
         == SpentInAll(payments, allocs, account, n)
                + if a.payment < n && payments[a.payment].account == account then a.amount else 0
  {
    if n > 0 {
      SpentInAllAppend(payments, allocs, a, account, n - 1);
      assert (allocs + [a])[..|allocs|] == allocs;
    }
  }

  lemma {:induction false} NothingAllocated(invoices: seq<Invoice>, payments: seq<Payment>, account: nat, n: nat,
                                            m: nat)
    requires n <= |invoices| && m <= |payments|
    ensures PaidInAll(invoices, [], account, n) == 0 && SpentInAll(payments, [], account, m) == 0
    decreases n + m
  {
    if n > 0 {
      NothingAllocated(invoices, payments, account, n - 1, m);
    } else if m > 0 {
      NothingAllocated(invoices, payments, account, n, m - 1);
    }
  }

  /** Counted by invoice or counted by payment, the allocated money of an account is the same. */
  lemma {:induction false} BothWaysOfCounting(invoices: seq<Invoice>, payments: seq<Payment>, allocs: seq<Allocation>,
                                              account: nat)
    requires Sound(invoices, payments, allocs)
    ensures PaidInAll(invoices, allocs, account, |invoices|) == SpentInAll(payments, allocs, account, |payments|)
  {
    if allocs == [] {
      NothingAllocated(invoices, payments, account, |invoices|, |payments|);
    } else {
      var init, a := allocs[..|allocs| - 1], allocs[|allocs| - 1];
      assert allocs == init + [a];
      BothWaysOfCounting(invoices, payments, init, account);
      PaidInAllAppend(invoices, init, a, account, |invoices|);
      SpentInAllAppend(payments, init, a, account, |payments|);
    }
  }

  lemma {:induction false} CreditIsRest(payments: seq<Payment>, allocs: seq<Allocation>, account: nat, n: nat)
    requires n <= |payments| && WithinPaid(payments, allocs)
    ensures Credit(payments, allocs, account, n)
        == Received(payments, account, n) - SpentInAll(payments, allocs, account, n)
    ensures Credit(payments, allocs, account, n) >= 0
  {
    if n > 0 {
      CreditIsRest(payments, allocs, account, n - 1);
    }
  }

  // ---- the open invoices of an account, oldest first ----

  function InsertByStart(invoices: seq<Invoice>, ids: seq<nat>, id: nat): (out: seq<nat>)
    requires id < |invoices| && forall k | 0 <= k < |ids| :: ids[k] < |invoices|
    ensures forall k | 0 <= k < |out| :: out[k] < |invoices|
  {
    if ids != [] && invoices[id].start < invoices[ids[|ids| - 1]].start then
      InsertByStart(invoices, ids[..|ids| - 1], id) + [ids[|ids| - 1]]
    else ids + [id]
  }

  /** The live invoices of the account among the first n, oldest first. */
  function OpenIds(invoices: seq<Invoice>, account: nat, n: nat): (ids: seq<nat>)
    requires n <= |invoices|
    ensures forall k | 0 <= k < |ids| :: ids[k] < |invoices|
  {
    if n == 0 then []
    else
      var ids := OpenIds(invoices, account, n - 1);
      if invoices[n - 1].live && invoices[n - 1].account == account then InsertByStart(invoices, ids, n - 1) else ids
  }

  lemma {:induction false} InsertMember(invoices: seq<Invoice>, ids: seq<nat>, id: nat, x: nat)
    requires id < |invoices| && forall k | 0 <= k < |ids| :: ids[k] < |invoices|
    ensures x in InsertByStart(invoices, ids, id) <==> x in ids || x == id
  {
    if ids != [] && invoices[id].start < invoices[ids[|ids| - 1]].start {
      InsertMember(invoices, ids[..|ids| - 1], id, x);
      assert ids == ids[..|ids| - 1] + [ids[|ids| - 1]];
    }
  }

  lemma {:induction false} OpenIdsMember(invoices: seq<Invoice>, account: nat, n: nat, x: nat)
    requires n <= |invoices|
    ensures x in OpenIds(invoices, account, n) <==> x < n && invoices[x].live && invoices[x].account == account
  {
    if n > 0 {
      OpenIdsMember(invoices, account, n - 1, x);
      if invoices[n - 1].live && invoices[n - 1].account == account {
        InsertMember(invoices, OpenIds(invoices, account, n - 1), n - 1, x);
      }
    }
  }

  ghost predicate ByStart(invoices: seq<Invoice>, ids: seq<nat>) {
    && (forall k | 0 <= k < |ids| :: ids[k] < |invoices|)
    && (forall i, j | 0 <= i < j < |ids| :: ids[i] != ids[j] && invoices[ids[i]].start <= invoices[ids[j]].start)
  }

  lemma AppendKeepsByStart(invoices: seq<Invoice>, ids: seq<nat>, last: nat)
    requires ByStart(invoices, ids) && last < |invoices| && last !in ids
    requires forall x: nat | x in ids && x < |invoices| :: invoices[x].start <= invoices[last].start
    ensures ByStart(invoices, ids + [last])
  {
    forall i, j | 0 <= i < j < |ids + [last]|
      ensures (ids + [last])[i] != (ids + [last])[j]
      ensures invoices[(ids + [last])[i]].start <= invoices[(ids + [last])[j]].start
    {
      assert ids[i] in ids;
    }
  }

  lemma {:induction false} InsertKeepsByStart(invoices: seq<Invoice>, ids: seq<nat>, id: nat)
    requires id < |invoices| && id !in ids && ByStart(invoices, ids)
    ensures ByStart(invoices, InsertByStart(invoices, ids, id))
  {
    if ids != [] && invoices[id].start < invoices[ids[|ids| - 1]].start {
      var init, last := ids[..|ids| - 1], ids[|ids| - 1];
      InsertKeepsByStart(invoices, init, id);
      var rest := InsertByStart(invoices, init, id);
      forall x: nat | x in rest
        ensures x in init || x == id
      {
        InsertMember(invoices, init, id, x);
      }
      AppendKeepsByStart(invoices, rest, last);
    } else {
      AppendKeepsByStart(invoices, ids, id);
    }
  }

  lemma {:induction false} OpenIdsSorted(invoices: seq<Invoice>, account: nat, n: nat)
    requires n <= |invoices|
    ensures ByStart(invoices, OpenIds(invoices, account, n))
  {
    if n > 0 {
      OpenIdsSorted(invoices, account, n - 1);
      OpenIdsMember(invoices, account, n - 1, n - 1);
      NextOpenSorted(invoices, account, n, OpenIds(invoices, account, n - 1), OpenIds(invoices, account, n));
    }
  }

  lemma NextOpenSorted(invoices: seq<Invoice>, account: nat, n: nat, ids: seq<nat>, next: seq<nat>)
    requires 0 < n <= |invoices| && ByStart(invoices, ids) && n - 1 !in ids
    requires next == if invoices[n - 1].live && invoices[n - 1].account == account
                     then InsertByStart(invoices, ids, n - 1) else ids
    ensures ByStart(invoices, next)
  {
    InsertKeepsByStart(invoices, ids, n - 1);
  }
}
