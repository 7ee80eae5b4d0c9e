/** The money tables as mutable state, and the transactions as the control plane performs them row
by row.  Each method is proved against its transaction function. */
module Store {
  import opened Basics
  import opened Rating
  import opened Currency
  import opened Ledger

  class MoneyStore {
    var accounts: map<Owner, Account>
    var ledger: seq<Entry>
    var open: map<CallId, OpenCall>
    var cdrs: map<CallId, Cdr>
    var rates: map<RateId, Rate>

    function State(): Db
      reads this
    {
      Db(accounts, ledger, open, cdrs, rates)
    }

    constructor ()
      ensures State() == EMPTY
    {
      accounts, ledger, open, cdrs, rates := map[], [], map[], map[], map[];
    }

    /** Abandon a transaction: put back the rows it started from. */
    method Rollback(db: Db)
      modifies this
      ensures State() == db
    {
      accounts, ledger, open, cdrs, rates := db.accounts, db.ledger, db.open, db.cdrs, db.rates;
    }

    // ---- account rows ----

    method Post(o: Owner, call: Option<CallId>, kind: Kind, amount: int)
      requires o in accounts
      modifies this
      ensures State() == PostTx(old(State()), o, call, kind, amount)
    {
      accounts := accounts[o := accounts[o].(balance := accounts[o].balance + amount)];
      ledger := ledger + [Entry(o, call, kind, amount, accounts[o].balance)];
    }

    /** The conditional update: no row comes back when the account cannot afford the amount. */
    method Reserve(o: Owner, call: CallId, amount: nat) returns (ok: bool)
      modifies this
      ensures ok == ReserveTx(old(State()), o, call, amount).Some?
      ensures State() == if ok then ReserveTx(old(State()), o, call, amount).value else old(State())
    {
      ok := o in accounts && accounts[o].Available() > 0 && accounts[o].Available() >= amount;
      if ok {
        accounts := accounts[o := accounts[o].(reserved := accounts[o].reserved + amount)];
        ledger := ledger + [Entry(o, Some(call), Kind.Reserve, 0 - amount, accounts[o].balance)];
      }
    }

    method Release(o: Owner, call: CallId, amount: nat)
      requires o in accounts
      modifies this
      ensures State() == ReleaseTx(old(State()), o, call, amount)
    {
      if amount == 0 {
        return;
      }
      accounts := accounts[o := accounts[o].(reserved := Max(accounts[o].reserved - amount, 0))];
      ledger := ledger + [Entry(o, Some(call), Kind.Release, amount, accounts[o].balance)];
    }

    // ---- call setup ----

    /** Pre-check on the money read earlier, then the per-call rows and the reservation in one transaction. */
    method SetUp(s: SetupRequest, reserveMinutes: int) returns (ok: bool)
      modifies this
      ensures State() == SetupTx(old(State()), s, reserveMinutes)
      ensures ok == ReserveSucceeds(old(State()), s, SetupAmount(s, reserveMinutes))
    {
      var amount := SetupAmount(s, reserveMinutes);
      var o := Customer(s.customer);
      if o !in accounts || s.seen <= 0 || s.seen < amount || s.rateId !in rates {
        return false;
      }
      var before := State();
      if s.call !in cdrs {
        cdrs := cdrs[s.call := PendingCdr(s, amount)];
      }
      if s.call !in open {
        open := open[s.call := OpenCall(o, amount)];
      }
      ok := Reserve(o, s.call, amount);
      if !ok {
        Rollback(before);
      }
    }

    // ---- settlement ----

    /** Walk the attempts backwards to the latest one on the carrier that knows its buy rate. */
    method FindBuyRate(attempts: seq<Attempt>, carrier: nat) returns (id: Option<RateId>)
      ensures id == BuyRateFor(attempts, carrier) && IsBuyRate(attempts, carrier, id)
    {
      BuyRateIsLatest(attempts, carrier);
      var i := |attempts|;
      assert attempts[..i] == attempts;
      while i > 0
        invariant 0 <= i <= |attempts|
        invariant BuyRateFor(attempts, carrier) == BuyRateFor(attempts[..i], carrier)
      {
        i := i - 1;
        assert attempts[..i + 1][..i] == attempts[..i];
        if attempts[i].carrier == carrier && attempts[i].buyRate.Some? {
          return attempts[i].buyRate;
        }
      }
      return None;
    }

    /** Connect fees of the failed attempts; the carrier's setting is looked up once per carrier. */
    method FailedAttemptFees(attempts: seq<Attempt>, env: Costing) returns (fees: seq<Fee>)
      ensures fees == AttemptFees(rates, env, attempts)
    {
      fees := [];
      var charge: map<nat, bool> := map[];
      for i := 0 to |attempts|
        invariant fees == AttemptFees(rates, env, attempts[..i])
        invariant forall c | c in charge :: charge[c] == (c in env.chargesFailed)
      {
        var at := attempts[i];
        assert attempts[..i + 1][..i] == attempts[..i];
        if at.answered || at.buyRate.None? {
          continue;
        }
        if at.carrier !in charge {
          charge := charge[at.carrier := at.carrier in env.chargesFailed];
        }
        if !charge[at.carrier] {
          continue;
        }
        if at.buyRate.value !in rates || rates[at.buyRate.value].connectFee == 0 {
          continue;
        }
        fees := fees
            + [Fee(at.carrier, Convert(rates[at.buyRate.value].connectFee, env.Fx(at.buyRate.value, at.carrier)))];
      }
      assert attempts[..|attempts|] == attempts;
    }

    method TotalFees(fees: seq<Fee>) returns (total: nat)
      ensures total == FeeTotal(fees)
    {
      total := 0;
      for i := 0 to |fees|
        invariant total == FeeTotal(fees[..i])
      {
        assert fees[..i + 1][..i] == fees[..i];
        total := total + fees[i].amount;
      }
      assert fees[..|fees|] == fees;
    }

    method PostAttemptFees(call: CallId, fees: seq<Fee>)
      modifies this
      ensures State() == PostFees(old(State()), call, fees)
    {
      for i := 0 to |fees|
        invariant State() == PostFees(old(State()), call, fees[..i])
      {
        assert fees[..i + 1][..i] == fees[..i];
        if Carrier(fees[i].carrier) in accounts {
          Post(Carrier(fees[i].carrier), Some(call), Cost, 0 - fees[i].amount);
        }
      }
      assert fees[..|fees|] == fees;
    }

    /** The CDR as billing leaves it, field by field. */
    method FinalCdr(was: Cdr, row: Option<OpenCall>, ch: Charges) returns (cdr: Cdr)
      ensures cdr == BilledCdr(was, row, ch)
    {
      cdr := was.(billed := true);
      if ch.price.Some? {
        cdr := cdr.(sellPrice := ch.price.value);
      }
      if ch.cost.Some? {
        cdr := cdr.(cost := ch.cost.value.amount, buyRate := ch.buyRate);
      }
      var fees := TotalFees(ch.fees);
      cdr := cdr.(cost := cdr.cost + fees);
      if row.Some? {
        cdr := cdr.(released := row.value.reserved);
        if ch.PriceDue() > 0 {
          cdr := cdr.(charged := ch.PriceDue());
        }
      }
    }

    /** The row changes of billing, in the order the transaction makes them. */
    method Charge(call: CallId, ch: Charges) returns (ok: bool)
      requires call in cdrs
      modifies this
      ensures ok == (call in old(open) ==> old(open)[call].account in old(accounts))
      ensures State() == if ok then ChargeTx(old(State()), call, ch) else old(State())
    {
      var before := State();
      var row := OpenRow(before, call);
      var cdr := FinalCdr(cdrs[call], row, ch);
      open := open - {call};
      cdrs := cdrs[call := cdr];
      if ch.cost.Some? && ch.cost.value.amount > 0 && Carrier(ch.cost.value.carrier) in accounts {
        Post(Carrier(ch.cost.value.carrier), Some(call), Cost, 0 - ch.cost.value.amount);
      }
      PostAttemptFees(call, ch.fees);
      if row.Some? {
        if row.value.account !in accounts {
          Rollback(before);
          return false;
        }
        Release(row.value.account, call, row.value.reserved);
        if ch.PriceDue() > 0 {
          Post(row.value.account, Some(call), Kind.Charge, 0 - ch.PriceDue());
        }
      }
      return true;
    }

    /** Bill a hangup once: the CDR's billed mark is the guard. */
    method Bill(h: Hangup, env: Costing) returns (out: BillResult)
      modifies this
      ensures out == BillOutcome(old(State()), h)
      ensures State() == BillTx(old(State()), h, env)
    {
      if h.call !in cdrs {
        return NoCdr;
      }
      var cdr := cdrs[h.call];
      if cdr.billed {
        return AlreadyBilled;
      }
      var price: Option<nat> := None;
      var cost: Option<Fee> := None;
      var buyRate: Option<RateId> := None;
      if h.answered && cdr.sellRate.Some? {
        if cdr.sellRate.value !in rates {
          return Failed;
        }
        price := SellPrice(State(), h);
        if h.carrier.Some? {
          var id := FindBuyRate(cdr.attempts, h.carrier.value);
          if id.Some? && id.value in rates {
            cost, buyRate := CarrierCost(State(), h, env), id;
          }
        }
      }
      var fees := FailedAttemptFees(cdr.attempts, env);
      var ok := Charge(h.call, Charges(price, cost, buyRate, fees));
      return if ok then Billed else Failed;
    }

    /** Return a reservation without charging and finalise the CDR; a second request does nothing. */
    method ReleaseReservation(call: CallId) returns (found: bool)
      modifies this
      ensures found == (call in old(cdrs))
      ensures State() == ReleaseReservationTx(old(State()), call)
    {
      found := call in cdrs;
      if !found || cdrs[call].billed {
        return;
      }
      var before := State();
      var cdr := cdrs[call];
      if call in open {
        var row := open[call];
        if row.account !in accounts {
          return;
        }
        Release(row.account, call, row.reserved);
        cdr := cdr.(released := row.reserved);
      }
      open := open - {call};
      cdrs := cdrs[call := cdr.(billed := true)];
      assert call !in before.open ==> before.open - {call} == before.open;
    }

    /** One reconciler pass: every stale reservation whose channel is gone is billed as unanswered. */
    method ReconcileOnce(stale: seq<CallId>, live: set<CallId>, env: Costing) returns (n: nat)
      modifies this
      ensures State() == Exec(old(State()), OrphanBills(stale, live, env), 0)
      ensures n == OrphansBilled(old(State()), stale, live, env)
    {
      n := 0;
      for i := 0 to |stale|
        invariant State() == Exec(old(State()), OrphanBills(stale[..i], live, env), 0)
        invariant n == OrphansBilled(old(State()), stale[..i], live, env)
      {
        assert stale[..i + 1][..i] == stale[..i];
        if stale[i] in live {
          continue;
        }
        ExecAppend(old(State()), OrphanBills(stale[..i], live, env), Step.Bill(Orphan(stale[i]), env), 0);
        var out := Bill(Orphan(stale[i]), env);
        if !out.Failed? {
          n := n + 1;
        }
      }
      assert stale[..|stale|] == stale;
    }
  }

  /** The hangup the reconciler invents for an orphaned call: never answered. */
  function Orphan(call: CallId): Hangup {
    Hangup(call, false, 0, None)
  }

  function OrphanBills(stale: seq<CallId>, live: set<CallId>, env: Costing): seq<Step> {
    if stale == [] then []
    else
      var rest := OrphanBills(stale[..|stale| - 1], live, env);
      var call := stale[|stale| - 1];
      if call in live then rest else rest + [Step.Bill(Orphan(call), env)]
  }

  /** How many stale calls the pass got through Bill. */
  function OrphansBilled(db: Db, stale: seq<CallId>, live: set<CallId>, env: Costing): nat {
    if stale == [] then 0
    else
      var rest, call := stale[..|stale| - 1], stale[|stale| - 1];
      OrphansBilled(db, rest, live, env) +
      if call !in live && BillOutcome(Exec(db, OrphanBills(rest, live, env), 0), Orphan(call)) != Failed then 1 else 0
  }

  lemma {:induction false} ExecAppend(db: Db, steps: seq<Step>, step: Step, reserveMinutes: int)
    ensures Exec(db, steps + [step], reserveMinutes) == Apply(Exec(db, steps, reserveMinutes), step, reserveMinutes)
    decreases |steps|
  {
    if steps == [] {
      assert [step][1..] == [];
    } else {
      assert (steps + [step])[1..] == steps[1..] + [step];
      ExecAppend(Apply(db, steps[0], reserveMinutes), steps[1..], step, reserveMinutes);
    }
  }
}
