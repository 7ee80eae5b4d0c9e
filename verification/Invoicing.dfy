/** The invoice book of the operator: generating, deleting and paying invoices, in any order. */
module Invoicing {
  import opened Ledger
  import opened Payments
  import opened Receivables
  import opened Statements

  datatype Generated = BadPeriod | Exists(id: nat) | Overlap | NoAccount | Created(id: nat)

  datatype Deleted = NotFound | AlreadyDeleted | NotUnpaid | Done

  predicate HasOpenPeriod(invoices: seq<Invoice>, account: nat, start: int, end: int) {
    exists i :: 0 <= i < |invoices| && invoices[i].live && Overlaps(invoices[i], account, start, end)
  }

  /** A live invoice of exactly the period. */
  predicate IsExact(inv: Invoice, account: nat, start: int, end: int) {
    inv.live && inv.account == account && inv.start == start && inv.end == end
  }

  predicate HasExactPeriod(invoices: seq<Invoice>, account: nat, start: int, end: int) {
    exists i :: 0 <= i < |invoices| && IsExact(invoices[i], account, start, end)
  }

  predicate HasDeletedPeriod(invoices: seq<Invoice>, account: nat, start: int, end: int) {
    exists i :: 0 <= i < |invoices| && !invoices[i].live && Overlaps(invoices[i], account, start, end)
  }

  /** The period is taken exactly when a live invoice covers an instant of it. */
  lemma OpenPeriodIff(invoices: seq<Invoice>, account: nat, start: int, end: int)
    requires start < end && forall i | 0 <= i < |invoices| :: invoices[i].start < invoices[i].end
    ensures HasOpenPeriod(invoices, account, start, end)
       <==> exists i, t :: 0 <= i < |invoices| && Covers(invoices[i], account, t) && InPeriod(t, start, end)
  {
    if HasOpenPeriod(invoices, account, start, end) {
      var i :| 0 <= i < |invoices| && invoices[i].live && Overlaps(invoices[i], account, start, end);
      OverlapsIff(invoices[i], account, start, end);
      var t :| InPeriod(t, invoices[i].start, invoices[i].end) && InPeriod(t, start, end);
      assert Covers(invoices[i], account, t);
    }
    if exists i, t :: 0 <= i < |invoices| && Covers(invoices[i], account, t) && InPeriod(t, start, end) {
      var i, t :| 0 <= i < |invoices| && Covers(invoices[i], account, t) && InPeriod(t, start, end);
      assert Overlaps(invoices[i], account, start, end);
    }
  }

  /** A deleted invoice stands in the period exactly when it would cover an instant of it were it live. */
  lemma DeletedPeriodIff(invoices: seq<Invoice>, account: nat, start: int, end: int)
    requires start < end && forall i | 0 <= i < |invoices| :: invoices[i].start < invoices[i].end
    ensures HasDeletedPeriod(invoices, account, start, end)
       <==> exists i, t :: 0 <= i < |invoices| && !invoices[i].live
                           && Covers(invoices[i].(live := true), account, t) && InPeriod(t, start, end)
  {
    if HasDeletedPeriod(invoices, account, start, end) {
      var i :| 0 <= i < |invoices| && !invoices[i].live && Overlaps(invoices[i], account, start, end);
      OverlapsIff(invoices[i], account, start, end);
      var t :| InPeriod(t, invoices[i].start, invoices[i].end) && InPeriod(t, start, end);
      assert Covers(invoices[i].(live := true), account, t);
    }
    if exists i, t ::
         0 <= i < |invoices| && !invoices[i].live && Covers(invoices[i].(live := true), account, t)
         && InPeriod(t, start, end)
    {
      var i, t :| 0 <= i < |invoices| && !invoices[i].live && Covers(invoices[i].(live := true), account, t)
        && InPeriod(t, start, end);
      assert Overlaps(invoices[i], account, start, end);
    }
  }

  /** Usage of the period, as a positive number. */
  function AmountOf(s: Statement, carrier: bool): int {
    0 - if carrier then s.costs else s.charges
  }

  lemma NewPeriodDisjoint(invoices: seq<Invoice>, inv: Invoice)
    requires PeriodsDisjoint(invoices) && inv.start < inv.end
    requires !HasOpenPeriod(invoices, inv.account, inv.start, inv.end)
    ensures PeriodsDisjoint(invoices + [inv])
  {
    var now := invoices + [inv];
    forall i, j | 0 <= i < j < |now|
      ensures Apart(now[i], now[j])
    {
      if j < |invoices| {
        assert Apart(invoices[i], invoices[j]);
      } else if invoices[i].live {
        assert !Overlaps(invoices[i], inv.account, inv.start, inv.end);
      }
    }
  }

  lemma NewInvoiceUnpaid(invoices: seq<Invoice>, payments: seq<Payment>, allocations: seq<Allocation>, inv: Invoice)
    requires Sound(invoices, payments, allocations) && WithinOwed(invoices, allocations) && inv.amount >= 0
    ensures Sound(invoices + [inv], payments, allocations) && WithinOwed(invoices + [inv], allocations)
  {
    UnpaidIff(allocations, |invoices|);
  }

  /** The invoice of a period: its statement, and the usage as the amount. */
  function NewInvoice(lines: seq<Line>, account: nat, start: int, end: int, carrier: bool): (inv: Invoice)
    ensures inv.account == account && inv.start == start && inv.end == end && inv.live
  {
    var s := StatementOf(lines, account, start, end);
    Invoice(account, start, end, s, AmountOf(s, carrier), true)
  }

  /** inv bills the account's usage of the period, charges for a customer and costs for a carrier, and its statement
      has the sums of the account's lines, kind by kind. */
  ghost predicate Bills(inv: Invoice, lines: seq<Line>, account: nat, start: int, end: int, carrier: bool) {
    var s := inv.statement;
    && inv.account == account && inv.start == start && inv.end == end && inv.live
    && inv.amount == 0 - SumOf(lines, account, if carrier then Kind.Cost else Kind.Charge, start, end)
    && s.opening == SumBefore(lines, account, start) && s.closing == SumBefore(lines, account, end)
    && s.topups == SumOf(lines, account, Kind.Topup, start, end)
    && s.charges == SumOf(lines, account, Kind.Charge, start, end)
    && s.costs == SumOf(lines, account, Kind.Cost, start, end)
    && s.adjustments == SumOf(lines, account, Kind.Adjustment, start, end)
    && s.refunds == SumOf(lines, account, Kind.Refund, start, end)
  }

  /** The invoice of any period bills its usage, its statement balances, and its amount is never negative. */
  lemma NewInvoiceSound(lines: seq<Line>, account: nat, start: int, end: int, carrier: bool)
    requires UsageIsDebit(lines) && start <= end
    ensures var inv := NewInvoice(lines, account, start, end, carrier);
      Bills(inv, lines, account, start, end, carrier) && Balances(inv.statement) && inv.amount >= 0
  {
    StatementBalances(lines, account, start, end);
    UsageSumIsDebit(lines, account, Kind.Charge, start, end);
    UsageSumIsDebit(lines, account, Kind.Cost, start, end);
  }

  lemma NewInvoiceConsistent(lines: seq<Line>, invoices: seq<Invoice>, payments: seq<Payment>,
                             allocations: seq<Allocation>, inv: Invoice)
    requires Consistent(lines, invoices, payments, allocations) && Balances(inv.statement) && inv.amount >= 0
    requires inv.start < inv.end && !HasOpenPeriod(invoices, inv.account, inv.start, inv.end)
    ensures Consistent(lines, invoices + [inv], payments, allocations)
  {
    NewPeriodDisjoint(invoices, inv);
    NewInvoiceUnpaid(invoices, payments, allocations, inv);
  }

  lemma NewInvoiceIsOpen(invoices: seq<Invoice>, inv: Invoice)
    requires inv.live && inv.start < inv.end
    ensures HasOpenPeriod(invoices + [inv], inv.account, inv.start, inv.end)
  {
    var now := invoices + [inv];
    assert now[|invoices|] == inv && Overlaps(now[|invoices|], inv.account, inv.start, inv.end);
  }

  lemma DeletedConsistent(lines: seq<Line>, invoices: seq<Invoice>, payments: seq<Payment>,
                          allocations: seq<Allocation>, id: nat)
    requires Consistent(lines, invoices, payments, allocations) && id < |invoices| && Paid(allocations, id) == 0
    ensures Consistent(lines, invoices[id := invoices[id].(live := false)], payments, allocations)
  {
    UnpaidIff(allocations, id);
    var now := invoices[id := invoices[id].(live := false)];
    forall i, j | 0 <= i < j < |now|
      ensures Apart(now[i], now[j])
    {
      assert Apart(invoices[i], invoices[j]);
    }
  }

  // ---- writing the allocation rows of a plan ----

  lemma PaidNext(allocs: seq<Allocation>, a: Allocation, x: nat)
    ensures Paid(allocs + [a], x) == Paid(allocs, x) + if a.invoice == x then a.amount else 0
    ensures Spent(allocs + [a], x) == Spent(allocs, x) + if a.payment == x then a.amount else 0
  {
    assert (allocs + [a])[..|allocs|] == allocs;
  }

  /** What the plan gives an invoice; nothing when the invoice is not listed. */
  ghost function Planned(ids: seq<nat>, planned: seq<int>, x: nat): int
    requires |ids| == |planned|
  {
    if ids == [] then 0
    else Planned(ids[..|ids| - 1], planned[..|ids| - 1], x) + if ids[|ids| - 1] == x then planned[|ids| - 1] else 0
  }

  lemma {:induction false} PlannedAt(ids: seq<nat>, planned: seq<int>, i: nat)
    requires |ids| == |planned| && Distinct(ids) && i < |ids|
    ensures Planned(ids, planned, ids[i]) == planned[i]
  {
    var n := |ids| - 1;
    if i == n {
      PlannedElsewhere(ids[..n], planned[..n], ids[i]);
    } else {
      PlannedAt(ids[..n], planned[..n], i);
    }
  }

  lemma {:induction false} PlannedElsewhere(ids: seq<nat>, planned: seq<int>, x: nat)
    requires |ids| == |planned| && x !in ids
    ensures Planned(ids, planned, x) == 0
  {
    if ids != [] {
      PlannedElsewhere(ids[..|ids| - 1], planned[..|ids| - 1], x);
    }
  }

  /** after is before with positive rows of the payment that give each invoice its planned amount. */
  ghost predicate Written(before: seq<Allocation>, after: seq<Allocation>, payment: nat, ids: seq<nat>,
                          planned: seq<int>)
    requires |ids| == |planned|
  {
    && |before| <= |after| && after[..|before|] == before
    && (forall k | |before| <= k < |after| ::
         after[k].amount > 0 && after[k].payment == payment && after[k].invoice in ids)
    && (forall x: nat :: Paid(after, x) == Paid(before, x) + Planned(ids, planned, x))
    && (forall p: nat :: Spent(after, p) == Spent(before, p) + if p == payment then Sum(planned) else 0)
  }

  /** A plan over the open invoices of the account, oldest first, with the properties of PlanPayment. */
  ghost predicate GoodPlan(invoices: seq<Invoice>, before: seq<Allocation>, account: nat, amount: int,
                           requests: seq<Request>, auto: bool, ids: seq<nat>, planned: seq<int>, unallocated: int)
  {
    && ids == OpenIds(invoices, account, |invoices|) && ByStart(invoices, ids) && |planned| == |ids|
    && var dues := Dues(invoices, before, ids);
    && unallocated >= 0 && Sum(planned) >= 0 && Sum(planned) + unallocated == amount
    && (forall i | 0 <= i < |ids| :: 0 <= planned[i] && (planned[i] > 0 ==> planned[i] <= dues[i]))
    && (forall i | 0 <= i < |ids| :: planned[i] >= Asked(requests, ids[i]))
    && (!auto ==> forall i | 0 <= i < |ids| :: planned[i] == Asked(requests, ids[i]))
    && (auto ==> forall i, j | 0 <= i < j < |ids| && planned[j] > Asked(requests, ids[j]) :: planned[i] >= dues[i])
    && (auto && unallocated > 0 ==> forall i | 0 <= i < |ids| :: planned[i] >= dues[i])
  }

  method Plan(invoices: seq<Invoice>, allocs: seq<Allocation>, account: nat, amount: int, requests: seq<Request>,
              auto: bool)
    returns (ok: bool, ids: seq<nat>, planned: seq<int>, unallocated: int)
    ensures ids == OpenIds(invoices, account, |invoices|)
    ensures ok <==> amount > 0 && Acceptable(ids, Dues(invoices, allocs, ids), amount, requests)
    ensures ok ==> GoodPlan(invoices, allocs, account, amount, requests, auto, ids, planned, unallocated)
  {
    ids := OpenIds(invoices, account, |invoices|);
    OpenIdsSorted(invoices, account, |invoices|);
    var dues := Dues(invoices, allocs, ids);
    ok, planned, unallocated := PlanPayment(ids, dues, amount, requests, auto);
    if ok {
      SumNonNegative(planned);
    }
  }

  /** Append one row per invoice that gets money. */
  method WriteRows(allocs: seq<Allocation>, payment: nat, ids: seq<nat>, planned: seq<int>)
    returns (out: seq<Allocation>)
    requires |ids| == |planned| && forall i | 0 <= i < |planned| :: planned[i] >= 0
    ensures Written(allocs, out, payment, ids, planned)
  {
    out := allocs;
    assert planned[..0] == [] && ids[..0] == [];
    assert Sum(planned[..0]) == 0;
    for k := 0 to |ids|
      invariant |allocs| <= |out| && out[..|allocs|] == allocs
      invariant forall j | |allocs| <= j < |out| ::
        out[j].amount > 0 && out[j].payment == payment && out[j].invoice in ids
      invariant forall x: nat :: Paid(out, x) == Paid(allocs, x) + Planned(ids[..k], planned[..k], x)
      invariant forall p: nat :: Spent(out, p) == Spent(allocs, p) + if p == payment then Sum(planned[..k]) else 0
    {
      ghost var before := out;
      assert ids[..k + 1][..k] == ids[..k] && planned[..k + 1][..k] == planned[..k];
      if planned[k] > 0 {
        var a := Allocation(payment, ids[k], planned[k]);
        forall x: nat
          ensures Paid(out + [a], x) == Paid(out, x) + if a.invoice == x then a.amount else 0
          ensures Spent(out + [a], x) == Spent(out, x) + if a.payment == x then a.amount else 0
        {
          PaidNext(out, a, x);
        }
        out := out + [a];
      }
    }
    assert ids[..|ids|] == ids && planned[..|ids|] == planned;
  }

  /** The rows of an accepted plan keep the book consistent. */
  lemma PlanConsistent(lines: seq<Line>, invoices: seq<Invoice>, payments: seq<Payment>, before: seq<Allocation>,
                       after: seq<Allocation>, account: nat, amount: int, receivedAt: int, requests: seq<Request>,
                       auto: bool, ids: seq<nat>, planned: seq<int>, unallocated: int)
    requires Consistent(lines, invoices, payments, before)
    requires GoodPlan(invoices, before, account, amount, requests, auto, ids, planned, unallocated)
    requires Written(before, after, |payments|, ids, planned)
    ensures Consistent(lines, invoices, payments + [Payment(account, amount, receivedAt)], after)
    ensures Spent(after, |payments|) + unallocated == amount
  {
    var now := payments + [Payment(account, amount, receivedAt)];
    UnspentIfUnnamed(before, |payments|);
    assert WithinPaid(now, after);
    forall i | 0 <= i < |invoices|
      ensures 0 <= Paid(after, i) <= invoices[i].amount
    {
      var k := PlanGain(invoices, account, ids, planned, i);
    }
    forall x: nat | x in ids
      ensures x < |invoices| && invoices[x].live && invoices[x].account == account
    {
      OpenIdsMember(invoices, account, |invoices|, x);
    }
    RowsSound(invoices, payments, before, after, account, amount, receivedAt, ids);
  }

  lemma RowsSound(invoices: seq<Invoice>, payments: seq<Payment>, before: seq<Allocation>, after: seq<Allocation>,
                  account: nat, amount: int, receivedAt: int, ids: seq<nat>)
    requires Sound(invoices, payments, before)
    requires forall x: nat | x in ids :: x < |invoices| && invoices[x].live && invoices[x].account == account
    requires |before| <= |after| && after[..|before|] == before
    requires forall k | |before| <= k < |after| ::
      after[k].amount > 0 && after[k].payment == |payments| && after[k].invoice in ids
    ensures Sound(invoices, payments + [Payment(account, amount, receivedAt)], after)
  {
    forall k | 0 <= k < |after|
      ensures after[k].amount > 0 && after[k].invoice < |invoices| && invoices[after[k].invoice].live
        && after[k].payment <= |payments|
        && invoices[after[k].invoice].account
               == (payments + [Payment(account, amount, receivedAt)])[after[k].payment].account
    {
      if k < |before| {
        assert after[k] == before[k];
      }
    }
  }

  class InvoiceBook {
    /** Accounts, each with whether it belongs to a carrier. */
    var accounts: map<nat, bool>
    var lines: seq<Line>
    var invoices: seq<Invoice>
    var payments: seq<Payment>
    var allocations: seq<Allocation>

    ghost predicate Valid()
      reads this
    {
      Consistent(lines, invoices, payments, allocations)
    }

    constructor (accounts: map<nat, bool>)
      ensures Valid() && this.accounts == accounts && lines == [] && invoices == [] && payments == []
      ensures allocations == []
    {
      this.accounts, lines, invoices, payments, allocations := accounts, [], [], [], [];
    }

    /** Invoice a period once: exactly when the account exists and no live invoice of it shares any of the period. */
    method GeneratePeriod(account: nat, start: int, end: int) returns (r: Generated)
      requires Valid()
      modifies this`invoices
      ensures Valid()
      ensures r.Created? <==> start < end && account in accounts && !old(HasOpenPeriod(invoices, account, start, end))
      ensures r.BadPeriod? <==> start >= end
      ensures r.Exists? <==> start < end && old(HasExactPeriod(invoices, account, start, end))
      ensures r.Exists? ==> r.id < |invoices| && IsExact(invoices[r.id], account, start, end)
      ensures r.Overlap? <==>
        start < end && old(HasOpenPeriod(invoices, account, start, end))
        && !old(HasExactPeriod(invoices, account, start, end))
      ensures start < end && account in accounts ==> HasOpenPeriod(invoices, account, start, end)
      ensures !r.Created? ==> invoices == old(invoices)
      ensures r.Created? ==>
        && r.id == |old(invoices)|
        && |invoices| == |old(invoices)| + 1 && invoices[..r.id] == old(invoices)
        && Bills(invoices[r.id], lines, account, start, end, accounts[account])
    {
      if start >= end {
        return BadPeriod;
      }
      for i := 0 to |invoices|
        invariant invoices == old(invoices)
        invariant forall k | 0 <= k < i ::
          !IsExact(invoices[k], account, start, end)
      {
        if invoices[i].live && invoices[i].account == account && invoices[i].start == start && invoices[i].end == end {
          assert Overlaps(invoices[i], account, start, end);
          return Exists(i);
        }
      }
      if HasOpenPeriod(invoices, account, start, end) {
        return Overlap;
      }
      if account !in accounts {
        return NoAccount;
      }
      r := Created(|invoices|);
      Insert(account, start, end);
    }

    method Insert(account: nat, start: int, end: int)
      requires Valid() && start < end && account in accounts && !HasOpenPeriod(invoices, account, start, end)
      modifies this`invoices
      ensures Valid() && |invoices| == |old(invoices)| + 1 && invoices[..|old(invoices)|] == old(invoices)
      ensures Bills(invoices[|old(invoices)|], lines, account, start, end, accounts[account])
      ensures HasOpenPeriod(invoices, account, start, end)
    {
      NewInvoiceSound(lines, account, start, end, accounts[account]);
      var inv := NewInvoice(lines, account, start, end, accounts[account]);
      NewInvoiceConsistent(lines, invoices, payments, allocations, inv);
      NewInvoiceIsOpen(invoices, inv);
      invoices := invoices + [inv];
    }

    /** Delete an unpaid invoice; its row stays and its period is free again. */
    method Delete(id: nat) returns (r: Deleted)
      requires Valid()
      modifies this`invoices
      ensures Valid()
      ensures r.NotFound? <==> id >= |old(invoices)|
      ensures r.AlreadyDeleted? <==> id < |old(invoices)| && !old(invoices)[id].live
      ensures r.Done? <==> id < |old(invoices)| && old(invoices)[id].live && Paid(allocations, id) == 0
      ensures invoices == if r.Done? then old(invoices)[id := old(invoices)[id].(live := false)] else old(invoices)
    {
      if id >= |invoices| {
        return NotFound;
      }
      var paid := Paid(allocations, id);
      if !invoices[id].live {
        return AlreadyDeleted;
      }
      if paid != 0 {
        return NotUnpaid;
      }
      DeletedConsistent(lines, invoices, payments, allocations, id);
      invoices := invoices[id := invoices[id].(live := false)];
      r := Done;
    }

    /** The accounts the monthly pass invoices: those that moved or have money, unless a deleted invoice touches the
        month. */
    method Choose(start: int, end: int, balances: map<nat, int>, all: seq<nat>) returns (chosen: seq<nat>)
      requires forall k | 0 <= k < |all| :: all[k] in accounts
      ensures forall j | 0 <= j < |chosen| ::
        chosen[j] in accounts && Wanted(lines, balances, chosen[j], start, end)
        && !HasDeletedPeriod(invoices, chosen[j], start, end)
      ensures forall j | 0 <= j < |all| && Wanted(lines, balances, all[j], start, end)
        && !HasDeletedPeriod(invoices, all[j], start, end) ::
        all[j] in chosen
    {
      chosen := [];
      for k := 0 to |all|
        invariant forall j | 0 <= j < |chosen| ::
          chosen[j] in accounts && Wanted(lines, balances, chosen[j], start, end)
          && !HasDeletedPeriod(invoices, chosen[j], start, end)
        invariant forall j | 0 <= j < k && Wanted(lines, balances, all[j], start, end)
          && !HasDeletedPeriod(invoices, all[j], start, end) ::
          all[j] in chosen
      {
        var wants := WantsInvoice(balances, all[k], start, end);
        if wants && !HasDeletedPeriod(invoices, all[k], start, end) {
          chosen := chosen + [all[k]];
        }
      }
    }

    /** Look for money on the account, then for a movement in the period. */
    method WantsInvoice(balances: map<nat, int>, account: nat, start: int, end: int) returns (wants: bool)
      ensures wants == Wanted(lines, balances, account, start, end)
    {
      if account in balances && balances[account] != 0 {
        return true;
      }
      for i := 0 to |lines|
        invariant forall j | 0 <= j < i :: !(lines[j].account == account && start <= lines[j].at < end)
      {
        if lines[i].account == account && start <= lines[i].at < end {
          return true;
        }
      }
      wants := false;
    }

    /** The worker's monthly pass: new invoices only, all of the month, none for an account with a deleted
        invoice in it; afterwards the month of every other wanted account is invoiced. */
    method GenerateMonth(start: int, end: int, balances: map<nat, int>, all: seq<nat>) returns (n: nat)
      requires Valid() && start < end && forall k | 0 <= k < |all| :: all[k] in accounts
      modifies this`invoices
      ensures Valid()
      ensures AddsMonthly(old(invoices), invoices, lines, balances, accounts, start, end)
      ensures |invoices| == |old(invoices)| + n
      ensures forall k | 0 <= k < |all| && Wanted(lines, balances, all[k], start, end)
        && !HasDeletedPeriod(old(invoices), all[k], start, end) ::
        HasOpenPeriod(invoices, all[k], start, end)
    {
      var chosen := Choose(start, end, balances, all);
      ghost var before := invoices;
      n := 0;
      for k := 0 to |chosen|
        invariant Valid()
        invariant AddsMonthly(before, invoices, lines, balances, accounts, start, end) && |invoices| == |before| + n
        invariant forall j | 0 <= j < k :: HasOpenPeriod(invoices, chosen[j], start, end)
      {
        var created := GenerateOne(chosen[k], start, end, balances, before, chosen[..k]);
        if created {
          n := n + 1;
        }
      }
    }

    /** One account of the monthly pass; an existing or overlapping invoice is left as it is. */
    method GenerateOne(account: nat, start: int, end: int, ghost balances: map<nat, int>, ghost before: seq<Invoice>,
                       ghost done: seq<nat>)
      returns (created: bool)
      requires Valid() && start < end && account in accounts && !HasDeletedPeriod(before, account, start, end)
      requires Wanted(lines, balances, account, start, end)
      requires AddsMonthly(before, invoices, lines, balances, accounts, start, end)
      requires forall j | 0 <= j < |done| :: HasOpenPeriod(invoices, done[j], start, end)
      modifies this`invoices
      ensures Valid() && HasOpenPeriod(invoices, account, start, end)
      ensures AddsMonthly(before, invoices, lines, balances, accounts, start, end)
      ensures |invoices| == |old(invoices)| + if created then 1 else 0
      ensures forall j | 0 <= j < |done| :: HasOpenPeriod(invoices, done[j], start, end)
    {
      var r := GeneratePeriod(account, start, end);
      created := r.Created?;
      forall j | 0 <= j < |done|
        ensures HasOpenPeriod(invoices, done[j], start, end)
      {
        OpenStays(old(invoices), invoices, done[j], start, end);
      }
    }

    /** Record a payment and its allocations, or nothing at all. */
    method InsertPayment(account: nat, amount: int, receivedAt: int, requests: seq<Request>, auto: bool)
      returns (ok: bool, unallocated: int)
      requires Valid()
      modifies this`payments, this`allocations
      ensures Valid()
      ensures ok <==>
        && amount > 0
        && var ids := OpenIds(invoices, account, |invoices|);
           Acceptable(ids, Dues(invoices, old(allocations), ids), amount, requests)
      ensures !ok ==> payments == old(payments) && allocations == old(allocations)
      ensures ok ==>
        payments == old(payments) + [Payment(account, amount, receivedAt)] && |old(allocations)| <= |allocations|
      ensures ok ==> allocations[..|old(allocations)|] == old(allocations)
      ensures ok ==> unallocated >= 0 && Spent(allocations, |old(payments)|) + unallocated == amount
      ensures ok ==> SpreadOldestFirst(invoices, old(allocations), allocations, account, requests, auto, unallocated)
    {
      var ids, planned;
      ok, ids, planned, unallocated := Plan(invoices, allocations, account, amount, requests, auto);
      if !ok {
        return;
      }
      var rows := WriteRows(allocations, |payments|, ids, planned);
      PlanConsistent(lines, invoices, payments, allocations, rows, account, amount, receivedAt, requests, auto, ids,
          planned, unallocated);
      PlanIsOldestFirst(invoices, allocations, rows, account, amount, requests, auto, unallocated, ids, planned);
      payments := payments + [Payment(account, amount, receivedAt)];
      allocations := rows;
    }

    /** The totals of the invoice ledger, from the newest invoices and payments of the account: what the
        listed live invoices owe, and what the listed payments exceed the allocations to listed invoices. */
    method InvoiceLedger(account: nat, invoiceOrder: seq<nat>, paymentOrder: seq<nat>)
      returns (outstanding: int, unallocated: int)
      requires Valid() && InvoicesNewestFirst(invoices, account, invoiceOrder)
      requires PaymentsNewestFirst(payments, account, paymentOrder)
      ensures outstanding == Outstanding(invoices, allocations, account, invoiceOrder)
      ensures unallocated == Unallocated(invoices, payments, allocations, account, invoiceOrder, paymentOrder)
      ensures outstanding
          == Due(invoices, allocations, account, |invoices|) - DueUnlisted(invoices, allocations, account, invoiceOrder)
      ensures unallocated == Credit(payments, allocations, account, |payments|)
        - ReceivedUnlisted(payments, account, paymentOrder) + PaidUnlisted(invoices, allocations, account, invoiceOrder)
      ensures 0 <= outstanding <= Due(invoices, allocations, account, |invoices|)
      ensures |invoiceOrder| <= INVOICE_LIMIT ==> outstanding == Due(invoices, allocations, account, |invoices|)
      ensures |invoiceOrder| <= INVOICE_LIMIT && |paymentOrder| <= PAYMENT_LIMIT ==>
        unallocated == Credit(payments, allocations, account, |payments|) >= 0
    {
      var invoiced, paidOff := AddInvoices(invoices, payments, allocations, account, invoiceOrder);
      var received := AddPayments(payments, account, paymentOrder);
      LedgerTotals(lines, invoices, payments, allocations, account, invoiceOrder, paymentOrder);
      unallocated := received - paidOff;
      outstanding := invoiced - paidOff;
    }

    /** Billing posts a ledger row. */
    method Post(line: Line)
      requires Valid() && (line.kind.Charge? || line.kind.Cost? ==> line.amount <= 0)
      modifies this`lines
      ensures Valid() && lines == old(lines) + [line]
    {
      lines := lines + [line];
    }
  }

  /** now is before with invoices of the period added, each the bill of an account that wants one and has no
      deleted invoice in the period. */
  ghost predicate AddsMonthly(before: seq<Invoice>, now: seq<Invoice>, lines: seq<Line>, balances: map<nat, int>,
                              accounts: map<nat, bool>, start: int, end: int) {
    && |before| <= |now| && now[..|before|] == before
    && forall i | |before| <= i < |now| ::
         && now[i].account in accounts && Wanted(lines, balances, now[i].account, start, end)
         && !HasDeletedPeriod(before, now[i].account, start, end)
         && Bills(now[i], lines, now[i].account, start, end, accounts[now[i].account])
  }

  /** The account moved in the period or has money on it. */
  predicate Wanted(lines: seq<Line>, balances: map<nat, int>, account: nat, start: int, end: int) {
    || (account in balances && balances[account] != 0)
    || (exists i :: 0 <= i < |lines| && lines[i].account == account && start <= lines[i].at < end)
  }

  lemma OpenStays(before: seq<Invoice>, after: seq<Invoice>, account: nat, start: int, end: int)
    requires HasOpenPeriod(before, account, start, end) && |before| <= |after| && after[..|before|] == before
    ensures HasOpenPeriod(after, account, start, end)
  {
    var i :| 0 <= i < |before| && before[i].live && Overlaps(before[i], account, start, end);
    assert after[i] == before[i];
  }

  function Dues(invoices: seq<Invoice>, allocs: seq<Allocation>, ids: seq<nat>): (d: seq<int>)
    requires forall i | 0 <= i < |ids| :: ids[i] < |invoices|
    ensures |d| == |ids| && forall i | 0 <= i < |ids| :: d[i] == invoices[ids[i]].amount - Paid(allocs, ids[i])
  {
    seq(|ids|, i requires 0 <= i < |ids| => invoices[ids[i]].amount - Paid(allocs, ids[i]))
  }

  lemma {:induction false} SumNonNegative(s: seq<int>)
    requires forall i | 0 <= i < |s| :: s[i] >= 0
    ensures Sum(s) >= 0
  {
    if s != [] {
      SumNonNegative(s[..|s| - 1]);
    }
  }

  /** How a payment changes what is paid: only open invoices of the account gain; without auto exactly what
      was requested; with auto an invoice gains more than requested only when all older ones are paid in
      full, and money is left only when all are. */
  ghost predicate SpreadOldestFirst(invoices: seq<Invoice>, before: seq<Allocation>, after: seq<Allocation>,
                                    account: nat, requests: seq<Request>, auto: bool, unallocated: int)
  {
    && (forall i | 0 <= i < |invoices| ::
          var gain := Paid(after, i) - Paid(before, i);
          if invoices[i].live && invoices[i].account == account
          then gain >= Asked(requests, i) && (!auto ==> gain == Asked(requests, i))
          else gain == 0)
    && (auto ==>
         forall i, j | 0 <= i < |invoices| && 0 <= j < |invoices| && invoices[i].live && invoices[i].account == account
          && invoices[j].live && invoices[j].account == account && invoices[i].start < invoices[j].start ::
          Paid(after, j) - Paid(before, j) > Asked(requests, j) ==> Paid(after, i) >= invoices[i].amount)
    && (auto && unallocated > 0 ==>
         forall i | 0 <= i < |invoices| && invoices[i].live && invoices[i].account == account ::
          Paid(after, i) >= invoices[i].amount)
  }

  /** The plan over the sorted list, read invoice by invoice. */
  lemma PlanGain(invoices: seq<Invoice>, account: nat, ids: seq<nat>, planned: seq<int>, i: nat) returns (k: nat)
    requires ids == OpenIds(invoices, account, |invoices|) && Distinct(ids) && |planned| == |ids| && i < |invoices|
    ensures invoices[i].live && invoices[i].account == account ==>
      k < |ids| && ids[k] == i && Planned(ids, planned, i) == planned[k]
    ensures !(invoices[i].live && invoices[i].account == account) ==> Planned(ids, planned, i) == 0
  {
    k := 0;
    OpenIdsMember(invoices, account, |invoices|, i);
    if i in ids {
      k :| 0 <= k < |ids| && ids[k] == i;
      PlannedAt(ids, planned, k);
    } else {
      PlannedElsewhere(ids, planned, i);
    }
  }

  lemma OlderComesFirst(invoices: seq<Invoice>, ids: seq<nat>, a: nat, b: nat)
    requires ByStart(invoices, ids) && a < |ids| && b < |ids| && invoices[ids[a]].start < invoices[ids[b]].start
    ensures a < b
  {
  }

  lemma PlanIsOldestFirst(invoices: seq<Invoice>, before: seq<Allocation>, after: seq<Allocation>, account: nat,
                          amount: int, requests: seq<Request>, auto: bool, unallocated: int, ids: seq<nat>,
                          planned: seq<int>)
    requires GoodPlan(invoices, before, account, amount, requests, auto, ids, planned, unallocated)
    requires forall x: nat :: Paid(after, x) == Paid(before, x) + Planned(ids, planned, x)
    ensures SpreadOldestFirst(invoices, before, after, account, requests, auto, unallocated)
  {
    forall i | 0 <= i < |invoices|
      ensures var gain := Paid(after, i) - Paid(before, i);
        if invoices[i].live && invoices[i].account == account
        then gain >= Asked(requests, i) && (!auto ==> gain == Asked(requests, i))
        else gain == 0
      ensures auto && unallocated > 0 && invoices[i].live && invoices[i].account == account ==>
        Paid(after, i) >= invoices[i].amount
    {
      var k := PlanGain(invoices, account, ids, planned, i);
    }
    if auto {
      forall i, j | 0 <= i < |invoices| && 0 <= j < |invoices| && invoices[i].live && invoices[i].account == account
        && invoices[j].live && invoices[j].account == account && invoices[i].start < invoices[j].start
        && Paid(after, j) - Paid(before, j) > Asked(requests, j)
        ensures Paid(after, i) >= invoices[i].amount
      {
        var a := PlanGain(invoices, account, ids, planned, i);
        var b := PlanGain(invoices, account, ids, planned, j);
        OlderComesFirst(invoices, ids, a, b);
      }
    }
  }
}
