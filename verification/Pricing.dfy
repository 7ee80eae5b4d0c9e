/** What a setup reserves and what billing charges and pays, from the rows themselves. */
module Pricing {
  import opened Basics
  import opened Decimal
  import opened Rating
  import opened Currency
  import opened Ledger
  import opened Books
  import opened Audit
  import opened Prepaid

  // ---- setup ----

  /** A setup reserves the price of the reserved minutes at the converted rate, when the money seen and the money
      there both cover it, and writes exactly these rows; otherwise it changes nothing. */
  lemma SetupExplained(db: Db, s: SetupRequest, reserveMinutes: int) returns (rate: Rate, amount: nat)
    ensures IsConverted(s.row, s.fx, rate) && IsPrice(amount, 60 * reserveMinutes, rate)
    ensures var o, d := Customer(s.customer), SetupTx(db, s, reserveMinutes);
      if o in db.accounts && s.rateId in db.rates && s.seen > 0 && s.seen >= amount
         && db.accounts[o].balance + db.accounts[o].credit - db.accounts[o].reserved >= Max(amount, 1)
      then
        var acc := db.accounts[o];
        && d.accounts == db.accounts[o := Account(acc.balance, acc.credit, acc.reserved + amount)]
        && d.ledger == db.ledger + [Entry(o, Some(s.call), Reserve, 0 - amount, acc.balance)]
        && (s.call !in db.open ==> d.open == db.open[s.call := OpenCall(o, amount)])
        && (s.call !in db.cdrs ==>
              d.cdrs == db.cdrs[s.call := Cdr(Some(s.rateId), None, if s.fx == 0 then FX_ONE else s.fx, [], false,
                                              amount, 0, 0, 0, 0)])
        && (s.call in db.open ==> d.open == db.open) && (s.call in db.cdrs ==> d.cdrs == db.cdrs)
        && d.rates == db.rates
      else d == db
  {
    rate, amount := ConvertRate(s.row, s.fx), SetupAmount(s, reserveMinutes);
    SetupConverts(s.row, s.fx);
    ReserveIsExact(reserveMinutes, rate);
  }

  // ---- the sell price ----

  /** price is what the customer owes for the call: nothing when it was not answered, else the price of the talk
      time at the sell rate, converted by what the CDR kept. */
  ghost predicate IsSellPrice(db: Db, h: Hangup, price: int)
    requires h.call in db.cdrs
  {
    var cdr := db.cdrs[h.call];
    if h.answered && cdr.sellRate.Some? then
      && cdr.sellRate.value in db.rates
      && exists r :: IsConverted(db.rates[cdr.sellRate.value], if cdr.sellFx == 0 then FX_ONE else cdr.sellFx, r)
                     && IsPrice(price, Max(h.billsec, 0), r)
    else price == 0
  }

  lemma SellPriceIsExact(db: Db, h: Hangup)
    requires BillOutcome(db, h) == Billed
    ensures var p := SellPrice(db, h); IsSellPrice(db, h, if p.Some? then p.value else 0)
  {
    var cdr := db.cdrs[h.call];
    if h.answered && cdr.sellRate.Some? {
      var row := db.rates[cdr.sellRate.value];
      BillingConverts(row, cdr.sellFx);
      PriceIsExact(Max(h.billsec, 0), ToRatingFx(row, cdr.sellFx));
    }
  }

  // ---- the answering carrier's cost ----

  /** The exchange rate of a buy rate into the carrier's account; absent or zero counts as one to one. */
  function BuyFx(env: Costing, id: RateId, carrier: nat): nat {
    if (id, carrier) in env.buyFx && env.buyFx[(id, carrier)] != 0 then env.buyFx[(id, carrier)] else FX_ONE
  }

  /** cost is what the answering carrier gets, and buy the rate it is priced at: the one of the last attempt on
      that carrier that knows its rate, while the row still exists. */
  ghost predicate IsCost(db: Db, h: Hangup, env: Costing, buy: Option<RateId>, cost: int)
    requires h.call in db.cdrs
  {
    var cdr := db.cdrs[h.call];
    if h.answered && cdr.sellRate.Some? && h.carrier.Some? then
      exists id: Option<RateId> ::
        && IsBuyRate(cdr.attempts, h.carrier.value, id)
        && if id.Some? && id.value in db.rates then
             && buy == id
             && exists r :: IsConverted(db.rates[id.value], BuyFx(env, id.value, h.carrier.value), r)
                            && IsPrice(cost, Max(h.billsec, 0), r)
           else buy == None && cost == 0
    else buy == None && cost == 0
  }

  lemma CarrierCostIsExact(db: Db, h: Hangup, env: Costing)
    requires BillOutcome(db, h) == Billed
    ensures var c, ch := CarrierCost(db, h, env), Assess(db, h, env);
      && IsCost(db, h, env, if c.Some? then ch.buyRate else None, if c.Some? then c.value.amount else 0)
      && (c.Some? ==> h.carrier == Some(c.value.carrier) && ch.buyRate.Some?)
  {
    var cdr := db.cdrs[h.call];
    if h.answered && cdr.sellRate.Some? && h.carrier.Some? {
      BuyRateIsLatest(cdr.attempts, h.carrier.value);
      var id := BuyRateFor(cdr.attempts, h.carrier.value);
      if id.Some? && id.value in db.rates {
        var row, fx := db.rates[id.value], env.Fx(id.value, h.carrier.value);
        BillingConverts(row, fx);
        PriceIsExact(Max(h.billsec, 0), ToRatingFx(row, fx));
      }
    }
  }

  /** The attempt recorded last on a carrier decides its rate. */
  lemma LastAttemptDecides(db: Db, call: CallId, a: Attempt)
    requires call in db.cdrs && a.buyRate.Some?
    ensures call in AttemptTx(db, call, a).cdrs
    ensures IsBuyRate(AttemptTx(db, call, a).cdrs[call].attempts, a.carrier, a.buyRate)
  {
    var attempts := AttemptTx(db, call, a).cdrs[call].attempts;
    assert attempts[|attempts| - 1] == a && KnowsRate(a, a.carrier);
  }

  // ---- the failed attempts ----

  /** fees lists, in order, one converted connect fee for each attempt that was not answered, on a carrier that
      charges for it, at a known rate with a fee. */
  ghost predicate IsFeeList(rates: map<RateId, Rate>, env: Costing, attempts: seq<Attempt>, fees: seq<Fee>) {
    if attempts == [] then fees == []
    else
      var init, a := attempts[..|attempts| - 1], attempts[|attempts| - 1];
      if !a.answered && a.carrier in env.chargesFailed && a.buyRate.Some? && a.buyRate.value in rates
         && rates[a.buyRate.value].connectFee > 0 then
        && |fees| > 0 && fees[|fees| - 1].carrier == a.carrier
        && var key := (a.buyRate.value, a.carrier);
        && var fx := if key in env.buyFx then env.buyFx[key] else FX_ONE;
        && Nearest(rates[a.buyRate.value].connectFee * fx, FX_ONE, fees[|fees| - 1].amount)
        && IsFeeList(rates, env, init, fees[..|fees| - 1])
      else IsFeeList(rates, env, init, fees)
  }

  lemma {:induction false} AttemptFeesAreConnectFees(rates: map<RateId, Rate>, env: Costing, attempts: seq<Attempt>)
    ensures IsFeeList(rates, env, attempts, AttemptFees(rates, env, attempts))
  {
    if attempts != [] {
      var init, a := attempts[..|attempts| - 1], attempts[|attempts| - 1];
      AttemptFeesAreConnectFees(rates, env, init);
      var rest, fee := AttemptFees(rates, env, init), AttemptFee(rates, env, a);
      if fee.Some? {
        assert (rest + [fee.value])[..|rest|] == rest;
      }
    }
  }

  /** What a list of fees owes one carrier. */
  function OwedTo(fees: seq<Fee>, carrier: nat): nat {
    if fees == [] then 0
    else
      OwedTo(fees[..|fees| - 1], carrier)
      + if fees[|fees| - 1].carrier == carrier then fees[|fees| - 1].amount else 0
  }

  lemma {:induction false} FeesReachCarriers(db: Db, call: CallId, fees: seq<Fee>, x: nat)
    requires Carrier(x) in db.accounts
    ensures var d := PostFees(db, call, fees);
      Carrier(x) in d.accounts && d.accounts[Carrier(x)]
        == db.accounts[Carrier(x)].(balance := db.accounts[Carrier(x)].balance - OwedTo(fees, x))
  {
    if fees != [] {
      FeesReachCarriers(db, call, fees[..|fees| - 1], x);
    }
  }

  // ---- billing ----

  /** The CDR after billing: price and cost on it, what was reserved returned. */
  function CdrAfter(was: Cdr, reserved: nat, price: nat, cost: nat, buy: Option<RateId>, fees: seq<Fee>): Cdr {
    Cdr(was.sellRate, if buy.Some? then buy else was.buyRate, was.sellFx, was.attempts, true, was.reserved,
        price, reserved, price, cost + FeeTotal(fees))
  }

  /** The account of a carrier after billing: less its fees, and less the cost when it answered. */
  function CarrierAfter(was: Account, x: nat, carrier: Option<nat>, cost: nat, fees: seq<Fee>): Account {
    Account(was.balance - OwedTo(fees, x) - (if carrier == Some(x) then cost else 0), was.credit, was.reserved)
  }

  /** d is db after the call was settled: the customer got the reservation back and paid the price, the answering
      carrier is owed the cost and the others their fees, and the CDR says so; nothing else changed hands. */
  ghost predicate IsSettlement(db: Db, d: Db, call: CallId, carrier: Option<nat>, price: nat, cost: nat,
                               buy: Option<RateId>, fees: seq<Fee>)
    requires call in db.open && call in db.cdrs && db.open[call].account in db.accounts
  {
    var row, acc := db.open[call], db.accounts[db.open[call].account];
    && d.open == db.open - {call} && d.rates == db.rates && d.accounts.Keys == db.accounts.Keys
    && d.cdrs == db.cdrs[call := CdrAfter(db.cdrs[call], row.reserved, price, cost, buy, fees)]
    && d.accounts[row.account] == Account(acc.balance - price, acc.credit, acc.reserved - row.reserved)
    && (forall o | o in db.accounts && o.Customer? && o != row.account :: d.accounts[o] == db.accounts[o])
    && (forall x: nat | Carrier(x) in db.accounts ::
          d.accounts[Carrier(x)] == CarrierAfter(db.accounts[Carrier(x)], x, carrier, cost, fees))
  }

  /** Billing a call settles it at its price, its cost and its fees. */
  lemma {:induction false} BillExplained(db: Db, h: Hangup, env: Costing)
    returns (price: nat, cost: nat, buy: Option<RateId>, fees: seq<Fee>)
    requires Inv(db) && h.call in db.open
    requires var cdr := db.cdrs[h.call]; h.answered && cdr.sellRate.Some? ==> cdr.sellRate.value in db.rates
    ensures IsSellPrice(db, h, price) && IsCost(db, h, env, buy, cost)
    ensures IsFeeList(db.rates, env, db.cdrs[h.call].attempts, fees)
    ensures IsSettlement(db, BillTx(db, h, env), h.call, h.carrier, price, cost, buy, fees)
  {
    var ch := Assess(db, h, env);
    price, cost, buy, fees := Amounts(ch);
    SellPriceIsExact(db, h);
    CarrierCostIsExact(db, h, env);
    AttemptFeesAreConnectFees(db.rates, env, db.cdrs[h.call].attempts);
    ChargeSettles(db, h.call, ch, h.carrier);
  }

  lemma Amounts(ch: Charges) returns (price: nat, cost: nat, buy: Option<RateId>, fees: seq<Fee>)
    ensures price == (if ch.price.Some? then ch.price.value else 0) && fees == ch.fees
    ensures cost == (if ch.cost.Some? then ch.cost.value.amount else 0)
    ensures buy == if ch.cost.Some? then ch.buyRate else None
  {
    price, fees := if ch.price.Some? then ch.price.value else 0, ch.fees;
    cost, buy := if ch.cost.Some? then ch.cost.value.amount else 0, if ch.cost.Some? then ch.buyRate else None;
  }

  lemma {:induction false} ChargeSettles(db: Db, call: CallId, ch: Charges, carrier: Option<nat>)
    requires Inv(db) && call in db.open
    requires ch.cost.Some? ==> carrier == Some(ch.cost.value.carrier) && ch.buyRate.Some?
    ensures IsSettlement(db, ChargeTx(db, call, ch), call, carrier, if ch.price.Some? then ch.price.value else 0,
                         if ch.cost.Some? then ch.cost.value.amount else 0,
                         if ch.cost.Some? then ch.buyRate else None, ch.fees)
  {
    BillMovesAvailable(db, call, ch);
    ChargeExtends(db, call, ch);
    CdrSettled(db, call, ch);
    forall x: nat | Carrier(x) in db.accounts
      ensures Carrier(x) in ChargeTx(db, call, ch).accounts
      ensures ChargeTx(db, call, ch).accounts[Carrier(x)]
           == CarrierAfter(db.accounts[Carrier(x)], x, carrier,
                           if ch.cost.Some? then ch.cost.value.amount else 0, ch.fees)
    {
      CarriersPaid(db, call, ch, carrier, x);
    }
  }

  lemma CdrSettled(db: Db, call: CallId, ch: Charges)
    requires Inv(db) && call in db.open && (ch.cost.Some? ==> ch.buyRate.Some?)
    ensures BilledCdr(db.cdrs[call], OpenRow(db, call), ch)
         == CdrAfter(db.cdrs[call], db.open[call].reserved, if ch.price.Some? then ch.price.value else 0,
                     if ch.cost.Some? then ch.cost.value.amount else 0,
                     if ch.cost.Some? then ch.buyRate else None, ch.fees)
  {
    assert CallBalanced(db, call);
  }

  lemma {:induction false} CarriersPaid(db: Db, call: CallId, ch: Charges, carrier: Option<nat>, x: nat)
    requires Inv(db) && call in db.open && Carrier(x) in db.accounts
    requires ch.cost.Some? ==> carrier == Some(ch.cost.value.carrier)
    ensures Carrier(x) in ChargeTx(db, call, ch).accounts
    ensures ChargeTx(db, call, ch).accounts[Carrier(x)]
         == CarrierAfter(db.accounts[Carrier(x)], x, carrier,
                         if ch.cost.Some? then ch.cost.value.amount else 0, ch.fees)
  {
    var closed := CloseCall(db, call, BilledCdr(db.cdrs[call], OpenRow(db, call), ch));
    var c := ch.cost;
    var d := if c.Some? && c.value.amount > 0 && Carrier(c.value.carrier) in closed.accounts
             then PostTx(closed, Carrier(c.value.carrier), Some(call), Cost, 0 - c.value.amount) else closed;
    FeesReachCarriers(d, call, ch.fees, x);
    CustomerSideOnly(PostCosts(closed, call, ch.cost, ch.fees), db.open[call], call, ch.PriceDue(), x);
  }

  lemma CustomerSideOnly(db: Db, row: OpenCall, call: CallId, price: nat, x: nat)
    requires row.account in db.accounts && row.account.Customer? && Carrier(x) in db.accounts
    ensures Carrier(x) in SettleTx(db, row, call, price).accounts
    ensures SettleTx(db, row, call, price).accounts[Carrier(x)] == db.accounts[Carrier(x)]
  {
  }

  // ---- other movements of money ----

  /** Giving a reservation back returns it and charges nothing. */
  lemma GiveBackExplained(db: Db, call: CallId)
    requires Inv(db) && call in db.open
    ensures var d, row, acc := ReleaseReservationTx(db, call), db.open[call], db.accounts[db.open[call].account];
      && d.accounts == db.accounts[row.account := Account(acc.balance, acc.credit, acc.reserved - row.reserved)]
      && d.open == db.open - {call} && d.rates == db.rates
      && d.cdrs == db.cdrs[call := CdrAfter(db.cdrs[call], row.reserved, 0, 0, None, [])]
  {
    assert CallBalanced(db, call);
    ReservationCovered(db, call);
    ReleaseEffect(db, db.open[call].account, call, db.open[call].reserved);
  }

  /** A rejected call leaves a final CDR without any money on it, and an existing one alone. */
  lemma RejectExplained(db: Db, call: CallId)
    ensures var d := RejectTx(db, call);
      && d == db.(cdrs := d.cdrs) && call in d.cdrs
      && (call in db.cdrs ==> d == db)
      && d.cdrs.Keys == db.cdrs.Keys + {call} && (forall c | c in db.cdrs :: d.cdrs[c] == db.cdrs[c])
      && (call !in db.cdrs ==>
            var cdr := d.cdrs[call];
            cdr.billed && cdr.attempts == []
            && cdr.reserved == cdr.charged == cdr.released == cdr.sellPrice == cdr.cost == 0)
  {
  }

  /** An operator posts top-ups and refunds of a positive amount, and adjustments of any but zero, on an account that
      exists; anything else is refused. */
  lemma OperatorExplained(db: Db, o: Owner, kind: Kind, amount: int)
    ensures var d := OperatorPostTx(db, o, kind, amount);
      if o in db.accounts && (((kind.Topup? || kind.Refund?) && amount > 0) || (kind.Adjustment? && amount != 0)) then
        var acc := db.accounts[o];
        && d.accounts == db.accounts[o := Account(acc.balance + amount, acc.credit, acc.reserved)]
        && d.ledger == db.ledger + [Entry(o, None, kind, amount, acc.balance + amount)]
        && d.open == db.open && d.cdrs == db.cdrs && d.rates == db.rates
      else d == db
  {
  }
}
