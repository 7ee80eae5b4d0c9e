/** Prepaid safety: when no call outlasts its reservation, no customer is ever overdrawn. */
module Prepaid {
  import opened Basics
  import opened Decimal
  import opened Rating
  import opened Currency
  import opened Ledger
  import opened Books
  import opened Settlement

  /** Billing an open call moves its customer's available money by the reservation minus the price,
      and nobody else's. */
  lemma {:induction false} BillMovesAvailable(db: Db, call: CallId, ch: Charges)
    requires Inv(db) && call in db.open
    ensures var d, o := ChargeTx(db, call, ch), db.open[call].account;
      && o in d.accounts
      && d.accounts[o] == db.accounts[o].(balance := db.accounts[o].balance - ch.PriceDue(),
                                          reserved := db.accounts[o].reserved - db.open[call].reserved)
      && d.accounts[o].Available() == db.accounts[o].Available() + db.open[call].reserved - ch.PriceDue()
      && d.accounts.Keys == db.accounts.Keys
      && (forall p | p in db.accounts && p.Customer? && p != o :: d.accounts[p] == db.accounts[p])
      && d.rates == db.rates
      && d.open == db.open - {call}
      && (forall c | c in db.cdrs && c != call :: c in d.cdrs && d.cdrs[c] == db.cdrs[c])
  {
    var row := db.open[call];
    var closed := CloseCall(db, call, BilledCdr(db.cdrs[call], Some(row), ch));
    var costed := PostCosts(closed, call, ch.cost, ch.fees);
    PostCostsIsCostsOnly(closed, call, ch.cost, ch.fees);
    ReservationCovered(db, call);
    forall p | p in db.accounts && p.Customer?
      ensures costed.accounts[p] == db.accounts[p]
    {
      assert CostsOnlyAccount(closed, costed, p);
    }
    SettleEffect(costed, row, call, ch.PriceDue());
  }

  /** The amount that covers reserveMinutes of a call at the rate billing will use. */
  function Cover(db: Db, cdr: Cdr, reserveMinutes: int): int
    requires cdr.sellRate.Some? && cdr.sellRate.value in db.rates
  {
    ReserveAmount(reserveMinutes, ToRatingFx(db.rates[cdr.sellRate.value], cdr.sellFx))
  }

  /** An open call holds exactly the price of the reserved minutes at its billing rate. */
  ghost predicate Covered(db: Db, c: CallId, reserveMinutes: int) {
    && c in db.cdrs && c in db.open
    && db.cdrs[c].sellRate.Some? && db.cdrs[c].sellRate.value in db.rates
    && db.open[c].reserved == Cover(db, db.cdrs[c], reserveMinutes)
  }

  /** No customer is overdrawn, and every open call is covered. */
  ghost predicate Solvent(db: Db, reserveMinutes: int) {
    && (forall o | o in db.accounts && o.Customer? :: db.accounts[o].Available() >= 0)
    && (forall c | c in db.open :: Covered(db, c, reserveMinutes))
  }

  /** What prepaid safety needs of the world: calls end within the reserved minutes, the matched
      rate is the stored one and is not edited under an open call, the exchange rate did not vanish,
      and operators neither debit customers nor cut credit. */
  ghost predicate Prudent(db: Db, step: Step, reserveMinutes: int) {
    match step
    case Setup(s) =>
      && s.call !in db.cdrs
      && (s.rateId in db.rates ==> s.row == db.rates[s.rateId])
      && (s.fx != 0 || (s.row.perMinute == 0 && s.row.connectFee == 0))
    case Bill(h, _) => h.call in db.open && h.answered ==> h.billsec <= 60 * reserveMinutes
    case Operator(o, _, amount) => o.Customer? ==> amount >= 0
    case SetCredit(o, credit) => o.Customer? && o in db.accounts ==> credit >= db.accounts[o].credit
    case SetRate(id, row) =>
      forall c | c in db.open && c in db.cdrs && db.cdrs[c].sellRate == Some(id) ::
        id in db.rates && db.rates[id] == row
    case _ => true
  }

  /** A call within the reserved minutes never costs more than it reserved. */
  lemma {:induction false} PriceWithinReservation(db: Db, h: Hangup, reserveMinutes: int)
    requires BillOutcome(db, h) == Billed && Covered(db, h.call, reserveMinutes)
    requires h.answered ==> h.billsec <= 60 * reserveMinutes
    ensures var price := SellPrice(db, h);
            price.Some? ==> price.value <= db.open[h.call].reserved
  {
    if h.answered {
      var rate := ToRatingFx(db.rates[db.cdrs[h.call].sellRate.value], db.cdrs[h.call].sellFx);
      if h.billsec >= 0 {
        PriceMonotone(h.billsec, reserveMinutes * 60, rate);
      } else {
        assert Price(0, rate) == 0;
      }
    }
  }

  lemma {:induction false} BillKeepsSolvent(db: Db, h: Hangup, env: Costing, reserveMinutes: int)
    requires Inv(db) && Solvent(db, reserveMinutes) && Prudent(db, Bill(h, env), reserveMinutes)
    ensures Solvent(BillTx(db, h, env), reserveMinutes)
  {
    if BillOutcome(db, h) == Billed {
      assert Covered(db, h.call, reserveMinutes);
      PriceWithinReservation(db, h, reserveMinutes);
      ChargeKeepsSolvent(db, h.call, Assess(db, h, env), reserveMinutes);
    }
  }

  lemma {:induction false} ChargeKeepsSolvent(db: Db, call: CallId, ch: Charges, reserveMinutes: int)
    requires Inv(db) && Solvent(db, reserveMinutes) && call in db.open
    requires ch.PriceDue() <= db.open[call].reserved
    ensures Solvent(ChargeTx(db, call, ch), reserveMinutes)
  {
    var d := ChargeTx(db, call, ch);
    BillMovesAvailable(db, call, ch);
    forall c | c in d.open
      ensures Covered(d, c, reserveMinutes)
    {
      assert Covered(db, c, reserveMinutes);
    }
  }

  lemma {:induction false} SetupKeepsSolvent(db: Db, s: SetupRequest, reserveMinutes: int)
    requires Inv(db) && Solvent(db, reserveMinutes) && Prudent(db, Setup(s), reserveMinutes)
    ensures Solvent(SetupTx(db, s, reserveMinutes), reserveMinutes)
  {
    var a := SetupAmount(s, reserveMinutes);
    if ReserveSucceeds(db, s, a) {
      SetupAndBillingAgree(s.row, s.fx);
      assert a == ReserveAmount(reserveMinutes, ToRatingFx(db.rates[s.rateId], StoredFx(s.fx)));
      ReserveKeepsSolvent(db, s, a, reserveMinutes);
    }
  }

  lemma {:induction false} ReserveKeepsSolvent(db: Db, s: SetupRequest, a: nat, reserveMinutes: int)
    requires Inv(db) && Solvent(db, reserveMinutes) && s.call !in db.cdrs && ReserveSucceeds(db, s, a)
    requires a == ReserveAmount(reserveMinutes, ToRatingFx(db.rates[s.rateId], StoredFx(s.fx)))
    ensures Solvent(ReserveCallTx(db, s, a), reserveMinutes)
  {
    var d := ReserveCallTx(db, s, a);
    ReserveEffect(db, s, a);
    forall c | c in d.open
      ensures Covered(d, c, reserveMinutes)
    {
      assert c != s.call ==> Covered(db, c, reserveMinutes);
    }
  }

  lemma {:induction false} GiveBackKeepsSolvent(db: Db, call: CallId, reserveMinutes: int)
    requires Inv(db) && Solvent(db, reserveMinutes)
    ensures Solvent(ReleaseReservationTx(db, call), reserveMinutes)
  {
    var d := ReleaseReservationTx(db, call);
    if call in db.open {
      ReservationCovered(db, call);
      ReleaseEffect(db, db.open[call].account, call, db.open[call].reserved);
      forall c | c in d.open
        ensures Covered(d, c, reserveMinutes)
      {
        assert Covered(db, c, reserveMinutes);
      }
    }
  }

  lemma {:induction false} OthersKeepSolvent(db: Db, step: Step, reserveMinutes: int)
    requires Inv(db) && Solvent(db, reserveMinutes) && Prudent(db, step, reserveMinutes)
    requires !step.Setup? && !step.Bill? && !step.GiveBack?
    ensures Solvent(Apply(db, step, reserveMinutes), reserveMinutes)
  {
    var d := Apply(db, step, reserveMinutes);
    forall c | c in d.open
      ensures Covered(d, c, reserveMinutes)
    {
      assert Covered(db, c, reserveMinutes);
    }
  }

  ghost predicate PrudentRun(db: Db, steps: seq<Step>, reserveMinutes: int)
    decreases |steps|
  {
    steps == [] ||
    (Prudent(db, steps[0], reserveMinutes)
      && PrudentRun(Apply(db, steps[0], reserveMinutes), steps[1..], reserveMinutes))
  }

  /** Over any prudent run, with any number of overlapping calls, available money never goes negative. */
  lemma {:induction false} NeverOverdrawn(db: Db, steps: seq<Step>, reserveMinutes: int)
    requires Inv(db) && Solvent(db, reserveMinutes) && PrudentRun(db, steps, reserveMinutes)
    ensures Inv(Exec(db, steps, reserveMinutes)) && Solvent(Exec(db, steps, reserveMinutes), reserveMinutes)
    decreases |steps|
  {
    if steps != [] {
      StepKeepsInv(db, steps[0], reserveMinutes);
      match steps[0] {
        case Setup(s) => SetupKeepsSolvent(db, s, reserveMinutes);
        case Bill(h, env) => BillKeepsSolvent(db, h, env, reserveMinutes);
        case GiveBack(call) => GiveBackKeepsSolvent(db, call, reserveMinutes);
        case _ => OthersKeepSolvent(db, steps[0], reserveMinutes);
      }
      NeverOverdrawn(Apply(db, steps[0], reserveMinutes), steps[1..], reserveMinutes);
    }
  }

  // ---- an exchange rate that vanished ----

  lemma FreeRate(n: int, inc: Increments)
    ensures Price(n, Rate(0, 0, inc)) == 0
  {
    if BilledSeconds(n, inc) > 0 {
      AmountIsExact(BilledSeconds(n, inc), 0, 0);
    }
  }

  /** A call set up at an exchange rate of zero reserves nothing and is billed at the deck rate, one to one. */
  lemma {:induction false} VanishedFx(db: Db, s: SetupRequest, h: Hangup, reserveMinutes: int)
    requires Inv(db) && s.fx == 0 && s.call !in db.cdrs && ReserveSucceeds(db, s, 0) && s.row == db.rates[s.rateId]
    requires h.call == s.call && h.answered
    ensures SetupAmount(s, reserveMinutes) == 0
    ensures var d := SetupTx(db, s, reserveMinutes);
      && s.call in d.open && d.open[s.call].reserved == 0 && BillOutcome(d, h) == Billed
      && SellPrice(d, h) == Some(Price(Max(h.billsec, 0), s.row))
  {
    FreeRate(reserveMinutes * 60, s.row.inc);
    ReserveEffect(db, s, 0);
    ReserveKeepsInvIffFresh(db, s, 0);
    SetupAndBillingAgree(s.row, FX_ONE);
  }
}
