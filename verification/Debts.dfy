/** How far below zero an account can get over whole runs, with calls that overlap and end within their limits. */
module Debts {
  import opened Basics
  import opened Rating
  import opened Ledger
  import opened Books
  import opened Settlement
  import opened Prepaid
  import opened Overlap

  /** The longest each call may talk, by call id. */
  type Limits = map<CallId, int>

  function LimitOf(limits: Limits, c: CallId): int {
    if c in limits then limits[c] else 0
  }

  /** Every open call has the rate it will be billed with. */
  ghost predicate Priced(db: Db) {
    forall c | c in db.open :: IsOpenCall(db, db.open[c].account, c)
  }

  /** What an open call can cost beyond its reservation. */
  function CallExcess(db: Db, limits: Limits, c: CallId): nat
    requires c in db.open && IsOpenCall(db, db.open[c].account, c)
  {
    Max(PriceAfter(db, db.open[c].account, c, LimitOf(limits, c)) - db.open[c].reserved, 0)
  }

  /** The open calls with what each can cost beyond its reservation. */
  ghost function Excesses(db: Db, limits: Limits): (m: map<CallId, OpenCall>)
    requires Priced(db)
  {
    map c | c in db.open :: OpenCall(db.open[c].account, CallExcess(db, limits, c))
  }

  /** What the open calls of an account together can cost beyond their reservations. */
  ghost function OpenExcess(db: Db, limits: Limits, o: Owner): nat
    requires Priced(db)
  {
    OpenSum(Excesses(db, limits), o)
  }

  // ---- what the bound needs of the world ----

  /** Setups use fresh ids, calls end within their limits, operators neither debit customers nor cut credit, and
      the rate of an open call is not edited. */
  ghost predicate Orderly(db: Db, step: Step, limits: Limits) {
    match step
    case Setup(s) => s.call !in db.cdrs
    case Bill(h, _) => h.call in db.open && h.answered ==> h.billsec <= LimitOf(limits, h.call)
    case Operator(o, _, amount) => o.Customer? ==> amount >= 0
    case SetCredit(o, credit) => o.Customer? && o in db.accounts ==> credit >= db.accounts[o].credit
    case SetRate(id, row) =>
      forall c | c in db.open && c in db.cdrs && db.cdrs[c].sellRate == Some(id) ::
        id in db.rates && db.rates[id] == row
    case _ => true
  }

  ghost predicate OrderlyRun(db: Db, steps: seq<Step>, limits: Limits, reserveMinutes: int)
    decreases |steps|
  {
    steps == [] ||
    (Orderly(db, steps[0], limits)
      && OrderlyRun(Apply(db, steps[0], reserveMinutes), steps[1..], limits, reserveMinutes))
  }

  /** The step reserves money of the account. */
  predicate Reserves(db: Db, step: Step, o: Owner, reserveMinutes: int) {
    step.Setup? && Customer(step.s.customer) == o && ReserveSucceeds(db, step.s, SetupAmount(step.s, reserveMinutes))
  }

  /** The account owes at most what the calls of the last setup have used up of their excess. */
  ghost predicate Bounded(db: Db, limits: Limits, o: Owner, excess: nat)
    requires Priced(db)
  {
    o in db.accounts ==> db.accounts[o].Available() >= OpenExcess(db, limits, o) - excess
  }

  // ---- each step ----

  /** d has the open calls of db, at the same rates, but for c. */
  ghost predicate SameCalls(db: Db, d: Db, c: Option<CallId>) {
    && d.open.Keys == (if c.Some? then db.open.Keys - {c.value} else db.open.Keys)
    && (forall x | x in d.open :: d.open[x] == db.open[x])
    && (forall x | x in d.open && x in db.cdrs :: x in d.cdrs
          && d.cdrs[x].sellRate == db.cdrs[x].sellRate && d.cdrs[x].sellFx == db.cdrs[x].sellFx)
    && (forall x | x in d.open && x in db.cdrs && db.cdrs[x].sellRate.Some? && db.cdrs[x].sellRate.value in db.rates ::
          && db.cdrs[x].sellRate.value in d.rates
          && d.rates[db.cdrs[x].sellRate.value] == db.rates[db.cdrs[x].sellRate.value])
  }

  lemma SameExcesses(db: Db, d: Db, limits: Limits, c: Option<CallId>)
    requires Priced(db) && SameCalls(db, d, c)
    ensures Priced(d)
    ensures Excesses(d, limits) == if c.Some? then Excesses(db, limits) - {c.value} else Excesses(db, limits)
  {
    forall x | x in d.open
      ensures IsOpenCall(d, d.open[x].account, x) && CallExcess(d, limits, x) == CallExcess(db, limits, x)
    {
      assert IsOpenCall(db, db.open[x].account, x);
      CallStays(db, d, limits, x);
    }
  }

  /** A call that ends takes its excess with it. */
  lemma {:induction false} ExcessAfter(db: Db, d: Db, limits: Limits, c: CallId, o: Owner)
    requires Priced(db) && c in db.open && SameCalls(db, d, Some(c))
    ensures Priced(d)
    ensures OpenExcess(db, limits, o)
        == OpenExcess(d, limits, o) + if db.open[c].account == o then CallExcess(db, limits, c) else 0
  {
    SameExcesses(db, d, limits, Some(c));
    OpenSumSplit(Excesses(db, limits), c, o);
  }

  lemma {:induction false} BillBounded(db: Db, h: Hangup, env: Costing, limits: Limits, o: Owner, excess: nat)
    requires Inv(db) && Priced(db) && Bounded(db, limits, o, excess) && Orderly(db, Bill(h, env), limits) && o.Customer?
    ensures var d := BillTx(db, h, env); Priced(d) && Bounded(d, limits, o, excess)
  {
    var d := BillTx(db, h, env);
    if BillOutcome(db, h) == Billed {
      var p := db.open[h.call].account;
      assert IsOpenCall(db, p, h.call);
      OneBill(db, p, h, env);
      BillMovesAvailable(db, h.call, Assess(db, h, env));
      ClosedKeepsCalls(db, d, p, h.call);
      ExcessAfter(db, d, limits, h.call, o);
      DueWithinLimit(db, p, h, limits);
    }
  }

  lemma ClosedKeepsCalls(db: Db, d: Db, o: Owner, c: CallId)
    requires Closed(db, d, o, c)
    ensures SameCalls(db, d, Some(c))
  {
  }

  lemma DueWithinLimit(db: Db, o: Owner, h: Hangup, limits: Limits)
    requires IsOpenCall(db, o, h.call) && (h.answered ==> h.billsec <= LimitOf(limits, h.call))
    ensures Due(db, o, h) <= db.open[h.call].reserved + CallExcess(db, limits, h.call)
  {
    if h.answered {
      PriceGrows(db, o, h.call, h.billsec, LimitOf(limits, h.call));
    }
  }

  lemma {:induction false} GiveBackBounded(db: Db, call: CallId, limits: Limits, o: Owner, excess: nat)
    requires Inv(db) && Priced(db) && Bounded(db, limits, o, excess)
    ensures var d := ReleaseReservationTx(db, call); Priced(d) && Bounded(d, limits, o, excess)
  {
    var d := ReleaseReservationTx(db, call);
    if call in db.open {
      assert IsOpenCall(db, db.open[call].account, call);
      ReservationCovered(db, call);
      ReleaseEffect(db, db.open[call].account, call, db.open[call].reserved);
      ExcessAfter(db, d, limits, call, o);
    }
  }

  lemma {:induction false} SetupBounded(db: Db, s: SetupRequest, a: nat, limits: Limits, o: Owner, excess: nat)
    requires Inv(db) && Priced(db) && Bounded(db, limits, o, excess) && s.call !in db.cdrs && ReserveSucceeds(db, s, a)
    ensures var d := ReserveCallTx(db, s, a);
      && Priced(d)
      && Bounded(d, limits, o, if Customer(s.customer) == o then OpenExcess(d, limits, o) else excess)
  {
    var d := ReserveCallTx(db, s, a);
    ReserveEffect(db, s, a);
    ReservedPriced(db, d, s, a);
    ExcessAfter(d, db, limits, s.call, o);
  }

  /** A successful setup adds one open call with its rate; without that call, everything is as before. */
  lemma {:induction false} ReservedPriced(db: Db, d: Db, s: SetupRequest, a: nat)
    requires Linked(db) && Priced(db) && s.call !in db.cdrs && s.rateId in db.rates && d.rates == db.rates
    requires d.open == db.open[s.call := OpenCall(Customer(s.customer), a)]
    requires d.cdrs == db.cdrs[s.call := PendingCdr(s, a)]
    ensures Priced(d) && s.call in d.open && SameCalls(d, db, Some(s.call))
  {
    assert s.call !in db.open;
    forall x | x in d.open
      ensures IsOpenCall(d, d.open[x].account, x)
    {
      assert x != s.call ==> IsOpenCall(db, db.open[x].account, x);
    }
  }

  lemma CallStays(db: Db, d: Db, limits: Limits, x: CallId)
    requires x in db.open && IsOpenCall(db, db.open[x].account, x) && x in d.open && d.open[x] == db.open[x]
    requires x in d.cdrs && d.cdrs[x].sellRate == db.cdrs[x].sellRate && d.cdrs[x].sellFx == db.cdrs[x].sellFx
    requires var id := db.cdrs[x].sellRate.value; id in d.rates && d.rates[id] == db.rates[id]
    ensures IsOpenCall(d, d.open[x].account, x) && CallExcess(d, limits, x) == CallExcess(db, limits, x)
  {
  }

  lemma {:induction false} OthersBounded(db: Db, step: Step, limits: Limits, o: Owner, excess: nat, reserveMinutes: int)
    requires Inv(db) && Priced(db) && Bounded(db, limits, o, excess) && Orderly(db, step, limits) && o.Customer?
    requires !step.Setup? && !step.Bill? && !step.GiveBack?
    ensures var d := Apply(db, step, reserveMinutes); Priced(d) && Bounded(d, limits, o, excess)
  {
    var d := Apply(db, step, reserveMinutes);
    OthersKeepCalls(db, step, limits, reserveMinutes);
    OthersAddMoney(db, step, limits, o, reserveMinutes);
    SameExcesses(db, d, limits, None);
    if o !in db.accounts {
      NothingOpen(db, limits, o);
    }
  }

  lemma {:induction false} OthersKeepCalls(db: Db, step: Step, limits: Limits, reserveMinutes: int)
    requires Inv(db) && Priced(db) && Orderly(db, step, limits)
    requires !step.Setup? && !step.Bill? && !step.GiveBack?
    ensures SameCalls(db, Apply(db, step, reserveMinutes), None)
  {
    var d := Apply(db, step, reserveMinutes);
    match step
    case DropRates(ids) => DropKeepsCalls(db, ids);
    case SetRate(id, row) => EditKeepsCalls(db, id, row);
    case Reject(call) => CdrKeepsCalls(db, d, call);
    case AddAttempt(call, _) => CdrKeepsCalls(db, d, call);
    case _ => MoneyKeepsCalls(db, d);
  }

  /** The step touched one CDR, but not its rate. */
  lemma CdrKeepsCalls(db: Db, d: Db, call: CallId)
    requires d.open == db.open && d.rates == db.rates && db.cdrs.Keys <= d.cdrs.Keys
    requires forall x | x in db.cdrs && x != call :: d.cdrs[x] == db.cdrs[x]
    requires call in db.cdrs ==>
      d.cdrs[call].sellRate == db.cdrs[call].sellRate && d.cdrs[call].sellFx == db.cdrs[call].sellFx
    ensures SameCalls(db, d, None)
  {
  }

  lemma MoneyKeepsCalls(db: Db, d: Db)
    requires d.open == db.open && d.rates == db.rates && d.cdrs == db.cdrs
    ensures SameCalls(db, d, None)
  {
  }

  /** Rates of open calls cannot be deleted. */
  lemma {:induction false} DropKeepsCalls(db: Db, ids: set<RateId>)
    ensures SameCalls(db, DropRatesTx(db, ids), None)
  {
    forall x | x in db.cdrs && db.cdrs[x].sellRate.Some? && db.cdrs[x].sellRate.value in ids
      ensures DropRatesTx(db, ids) == db
    {
      assert Refers(db.cdrs[x], ids);
    }
  }

  lemma {:induction false} EditKeepsCalls(db: Db, id: RateId, row: Rate)
    requires forall c | c in db.open && c in db.cdrs && db.cdrs[c].sellRate == Some(id) ::
      id in db.rates && db.rates[id] == row
    ensures SameCalls(db, UpsertRateTx(db, id, row), None)
  {
  }

  lemma {:induction false} OthersAddMoney(db: Db, step: Step, limits: Limits, o: Owner, reserveMinutes: int)
    requires Orderly(db, step, limits) && o.Customer?
    requires !step.Setup? && !step.Bill? && !step.GiveBack?
    ensures var d := Apply(db, step, reserveMinutes);
      && (o in db.accounts ==> o in d.accounts && d.accounts[o].Available() >= db.accounts[o].Available())
      && (o in d.accounts && o !in db.accounts ==> d.accounts[o].Available() == 0)
  {
  }

  /** An owner without an account has no open calls. */
  lemma {:induction false} NothingOpen(db: Db, limits: Limits, o: Owner)
    requires Linked(db) && Priced(db) && o !in db.accounts
    ensures OpenExcess(db, limits, o) == 0
  {
    NobodyHolds(Excesses(db, limits), o);
  }

  lemma {:induction false} NobodyHolds(open: map<CallId, OpenCall>, o: Owner)
    requires forall c | c in open :: open[c].account != o
    ensures OpenSum(open, o) == 0
    decreases |open|
  {
    if |open| > 0 {
      NobodyHolds(open - {AnyCall(open)}, o);
    }
  }

  // ---- runs ----

  /** The excess of the account's open calls right after the last setup that reserved its money. */
  ghost function LastExcess(db: Db, steps: seq<Step>, limits: Limits, o: Owner, excess: nat, reserveMinutes: int): nat
    requires Inv(db) && Priced(db) && OrderlyRun(db, steps, limits, reserveMinutes) && o.Customer?
    decreases |steps|
  {
    if steps == [] then excess
    else
      var d := Apply(db, steps[0], reserveMinutes);
      StepPriced(db, steps[0], limits, o, reserveMinutes);
      LastExcess(d, steps[1..], limits, o,
                 if Reserves(db, steps[0], o, reserveMinutes) then OpenExcess(d, limits, o) else excess, reserveMinutes)
  }

  lemma {:induction false} StepPriced(db: Db, step: Step, limits: Limits, o: Owner, reserveMinutes: int)
    requires Inv(db) && Priced(db) && Orderly(db, step, limits) && o.Customer?
    ensures Inv(Apply(db, step, reserveMinutes)) && Priced(Apply(db, step, reserveMinutes))
  {
    var excess :=
      OpenExcess(db, limits, o)
          + if o in db.accounts && db.accounts[o].Available() < 0 then 0 - db.accounts[o].Available() else 0;
    StepBounded(db, step, limits, o, excess, reserveMinutes);
  }

  lemma {:induction false} StepBounded(db: Db, step: Step, limits: Limits, o: Owner, excess: nat, reserveMinutes: int)
    requires Inv(db) && Priced(db) && Bounded(db, limits, o, excess) && Orderly(db, step, limits) && o.Customer?
    ensures var d := Apply(db, step, reserveMinutes);
      && Inv(d) && Priced(d)
      && Bounded(d, limits, o, if Reserves(db, step, o, reserveMinutes) then OpenExcess(d, limits, o) else excess)
  {
    StepKeepsInv(db, step, reserveMinutes);
    match step
    case Setup(s) =>
      if ReserveSucceeds(db, s, SetupAmount(s, reserveMinutes)) {
        SetupBounded(db, s, SetupAmount(s, reserveMinutes), limits, o, excess);
      }
    case Bill(h, env) => BillBounded(db, h, env, limits, o, excess);
    case GiveBack(call) => GiveBackBounded(db, call, limits, o, excess);
    case _ => OthersBounded(db, step, limits, o, excess, reserveMinutes);
  }

  /** Over any run of setups, hangups within the limits and the other steps, in any order, an account owes at
      most what the calls that were open after its last setup can cost beyond their reservations, less what those
      still open can. */
  lemma {:induction false} DebtBounded(db: Db, steps: seq<Step>, limits: Limits, o: Owner, excess: nat,
                                       reserveMinutes: int)
    requires Inv(db) && Priced(db) && Bounded(db, limits, o, excess) && o.Customer?
    requires OrderlyRun(db, steps, limits, reserveMinutes)
    ensures var d := Exec(db, steps, reserveMinutes);
      Inv(d) && Priced(d) && Bounded(d, limits, o, LastExcess(db, steps, limits, o, excess, reserveMinutes))
    decreases |steps|
  {
    if steps != [] {
      var d := Apply(db, steps[0], reserveMinutes);
      StepBounded(db, steps[0], limits, o, excess, reserveMinutes);
      DebtBounded(d, steps[1..], limits, o,
                  if Reserves(db, steps[0], o, reserveMinutes) then OpenExcess(d, limits, o) else excess,
                  reserveMinutes);
    }
  }

  /** From an empty database: available money and, all the more, balance and credit never fall below zero by more. */
  lemma {:induction false} DebtAlwaysBounded(steps: seq<Step>, limits: Limits, o: Owner, reserveMinutes: int)
    requires OrderlyRun(EMPTY, steps, limits, reserveMinutes) && o.Customer?
    ensures var d, most := Exec(EMPTY, steps, reserveMinutes), LastExcess(EMPTY, steps, limits, o, 0, reserveMinutes);
      o in d.accounts ==> d.accounts[o].Available() >= 0 - most && d.accounts[o].Funds() >= 0 - most
  {
    DebtBounded(EMPTY, steps, limits, o, 0, reserveMinutes);
    assert Reconcile(Exec(EMPTY, steps, reserveMinutes), o).OK();
  }
}
