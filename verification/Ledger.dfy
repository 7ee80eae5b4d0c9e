/** The prepaid money tables and the transactions on them, as functions of the database value.

Accounts are keyed by their owner (the table makes the owner unique).  A transaction that fails
returns the database it was given: every error rolls back.
*/
module Ledger {
  import opened Basics
  import opened Decimal
  import opened Rating
  import opened Currency

  type CallId = nat
  type RateId = nat

  datatype Owner = Customer(id: nat) | Carrier(id: nat)

  datatype Account = Account(balance: int, credit: nat, reserved: int) {
    function Available(): int {
      balance + credit - reserved
    }

    /** Balance and credit, reserved or not. */
    function Funds(): int {
      balance + credit
    }
  }

  datatype Kind = Reserve | Release | Charge | Cost | Topup | Adjustment | Refund

  datatype Entry = Entry(account: Owner, call: Option<CallId>, kind: Kind, amount: int, balanceAfter: int)

  /** A row of active_calls: an open reservation. */
  datatype OpenCall = OpenCall(account: Owner, reserved: nat)

  datatype Attempt = Attempt(carrier: nat, answered: bool, buyRate: Option<RateId>)

  datatype Cdr = Cdr(sellRate: Option<RateId>, buyRate: Option<RateId>, sellFx: nat, attempts: seq<Attempt>,
                     billed: bool, reserved: nat, charged: int, released: int, sellPrice: int, cost: int)

  datatype Db = Db(accounts: map<Owner, Account>, ledger: seq<Entry>, open: map<CallId, OpenCall>,
                   cdrs: map<CallId, Cdr>, rates: map<RateId, Rate>)

  const EMPTY := Db(map[], [], map[], map[], map[])

  // ---- account rows and ledger entries ----

  /** Post: move money on the balance and write an entry. */
  function PostTx(db: Db, o: Owner, call: Option<CallId>, kind: Kind, amount: int): Db
    requires o in db.accounts
  {
    var acc := db.accounts[o].(balance := db.accounts[o].balance + amount);
    db.(accounts := db.accounts[o := acc], ledger := db.ledger + [Entry(o, call, kind, amount, acc.balance)])
  }

  /** Reserve: the conditional update; None when the account cannot afford it. */
  function ReserveTx(db: Db, o: Owner, call: CallId, amount: nat): Option<Db>
  {
    if o !in db.accounts || db.accounts[o].Available() <= 0 || db.accounts[o].Available() < amount then None
    else
      var acc := db.accounts[o].(reserved := db.accounts[o].reserved + amount);
      Some(db.(accounts := db.accounts[o := acc],
               ledger := db.ledger + [Entry(o, Some(call), Reserve, 0 - amount, acc.balance)]))
  }

  /** Release: give a reservation back, clamped at zero; a zero amount writes nothing. */
  function ReleaseTx(db: Db, o: Owner, call: CallId, amount: nat): Db
    requires o in db.accounts
  {
    if amount == 0 then db
    else
      var acc := db.accounts[o].(reserved := Max(db.accounts[o].reserved - amount, 0));
      db.(accounts := db.accounts[o := acc],
          ledger := db.ledger + [Entry(o, Some(call), Release, amount, acc.balance)])
  }

  // ---- call setup ----

  /** What setup hands to the reservation: the matched rate row as the rate table saw it, the
      exchange rate, and the available money read before the transaction. */
  datatype SetupRequest = SetupRequest(call: CallId, customer: nat, rateId: RateId, row: Rate, fx: nat, seen: int)

  function SetupAmount(s: SetupRequest, reserveMinutes: int): (a: nat)
  {
    PriceMonotone(reserveMinutes * 60, reserveMinutes * 60, ConvertRate(s.row, s.fx));
    ReserveAmount(reserveMinutes, ConvertRate(s.row, s.fx))
  }

  function PendingCdr(s: SetupRequest, amount: nat): Cdr {
    Cdr(Some(s.rateId), None, StoredFx(s.fx), [], false, amount, 0, 0, 0, 0)
  }

  /** The per-call rows of a setup; an existing row is left alone. */
  function InsertCall(db: Db, s: SetupRequest, amount: nat): Db {
    db.(cdrs := if s.call in db.cdrs then db.cdrs else db.cdrs[s.call := PendingCdr(s, amount)],
        open := if s.call in db.open then db.open else db.open[s.call := OpenCall(Customer(s.customer), amount)])
  }

  /** The reservation passes its pre-check and its references exist. */
  predicate Prechecked(db: Db, s: SetupRequest, amount: nat) {
    && Customer(s.customer) in db.accounts
    && s.seen > 0
    && s.seen >= amount
    && s.rateId in db.rates
  }

  predicate ReserveSucceeds(db: Db, s: SetupRequest, amount: nat) {
    && Prechecked(db, s, amount)
    && db.accounts[Customer(s.customer)].Available() > 0
    && db.accounts[Customer(s.customer)].Available() >= amount
  }

  /** The reservation transaction for a given amount. */
  function ReserveCallTx(db: Db, s: SetupRequest, amount: nat): Db {
    if !Prechecked(db, s, amount) then db
    else
      match ReserveTx(InsertCall(db, s, amount), Customer(s.customer), s.call, amount)
      case None => db
      case Some(d) => d
  }

  function SetupTx(db: Db, s: SetupRequest, reserveMinutes: int): Db {
    ReserveCallTx(db, s, SetupAmount(s, reserveMinutes))
  }

  /** A rejected call writes a final CDR and nothing else. */
  function RejectTx(db: Db, call: CallId): Db {
    if call in db.cdrs then db
    else db.(cdrs := db.cdrs[call := Cdr(None, None, FX_ONE, [], true, 0, 0, 0, 0, 0)])
  }

  function AttemptTx(db: Db, call: CallId, a: Attempt): Db {
    if call !in db.cdrs then db
    else db.(cdrs := db.cdrs[call := db.cdrs[call].(attempts := db.cdrs[call].attempts + [a])])
  }

  // ---- settlement ----

  /** A finished call as FreeSWITCH reports it. */
  datatype Hangup = Hangup(call: CallId, answered: bool, billsec: int, carrier: Option<nat>)

  /** Configuration read while billing: carriers that bill failed attempts, and the exchange rate
      of a buy rate into its carrier's account (absent: one to one). */
  datatype Costing = Costing(chargesFailed: set<nat>, buyFx: map<(RateId, nat), nat>) {
    function Fx(rate: RateId, carrier: nat): nat {
      if (rate, carrier) in buyFx then buyFx[(rate, carrier)] else FX_ONE
    }
  }

  datatype Fee = Fee(carrier: nat, amount: nat)

  /** The buy rate of the latest attempt on a carrier that carries one. */
  function BuyRateFor(attempts: seq<Attempt>, carrier: nat): Option<RateId>
  {
    if attempts == [] then None
    else
      var a := attempts[|attempts| - 1];
      if a.carrier == carrier && a.buyRate.Some? then a.buyRate
      else BuyRateFor(attempts[..|attempts| - 1], carrier)
  }

  /** The attempt went to the carrier and knows the rate it was routed with. */
  predicate KnowsRate(a: Attempt, carrier: nat) {
    a.carrier == carrier && a.buyRate.Some?
  }

  /** id is the rate of the last attempt on the carrier that knows one. */
  ghost predicate IsBuyRate(attempts: seq<Attempt>, carrier: nat, id: Option<RateId>) {
    match id
    case None => forall i | 0 <= i < |attempts| :: !KnowsRate(attempts[i], carrier)
    case Some(_) =>
      exists i :: 0 <= i < |attempts| && KnowsRate(attempts[i], carrier) && attempts[i].buyRate == id
        && forall j | i < j < |attempts| :: !KnowsRate(attempts[j], carrier)
  }

  lemma {:induction false} BuyRateIsLatest(attempts: seq<Attempt>, carrier: nat)
    ensures IsBuyRate(attempts, carrier, BuyRateFor(attempts, carrier))
  {
    if attempts != [] {
      var init, a := attempts[..|attempts| - 1], attempts[|attempts| - 1];
      BuyRateIsLatest(init, carrier);
      if KnowsRate(a, carrier) {
        assert attempts[|attempts| - 1].buyRate == BuyRateFor(attempts, carrier);
      } else if BuyRateFor(init, carrier).Some? {
        var i :| 0 <= i < |init| && KnowsRate(init[i], carrier) && init[i].buyRate == BuyRateFor(init, carrier)
          && forall j | i < j < |init| :: !KnowsRate(init[j], carrier);
        assert attempts[i] == init[i];
      }
    }
  }

  /** The connect fee a failed attempt costs, if it costs anything. */
  function AttemptFee(rates: map<RateId, Rate>, env: Costing, a: Attempt): Option<Fee> {
    if a.answered || a.buyRate.None? then None
    else if a.carrier !in env.chargesFailed then None
    else if a.buyRate.value !in rates || rates[a.buyRate.value].connectFee == 0 then None
    else Some(Fee(a.carrier, Convert(rates[a.buyRate.value].connectFee, env.Fx(a.buyRate.value, a.carrier))))
  }

  function AttemptFees(rates: map<RateId, Rate>, env: Costing, attempts: seq<Attempt>): seq<Fee>
  {
    if attempts == [] then []
    else
      var rest := AttemptFees(rates, env, attempts[..|attempts| - 1]);
      match AttemptFee(rates, env, attempts[|attempts| - 1])
      case None => rest
      case Some(f) => rest + [f]
  }

  function FeeTotal(fees: seq<Fee>): (t: nat)
  {
    if fees == [] then 0 else FeeTotal(fees[..|fees| - 1]) + fees[|fees| - 1].amount
  }

  /** One cost entry per fee whose carrier has an account. */
  function PostFees(db: Db, call: CallId, fees: seq<Fee>): (r: Db)
    ensures r.accounts.Keys == db.accounts.Keys
  {
    if fees == [] then db
    else
      var d := PostFees(db, call, fees[..|fees| - 1]);
      var f := fees[|fees| - 1];
      if Carrier(f.carrier) in d.accounts then PostTx(d, Carrier(f.carrier), Some(call), Cost, 0 - f.amount) else d
  }

  /** The sell price of a call; nothing unless it was answered and has a sell rate. */
  function SellPrice(db: Db, h: Hangup): Option<nat>
    requires h.call in db.cdrs
    requires h.answered && db.cdrs[h.call].sellRate.Some? ==> db.cdrs[h.call].sellRate.value in db.rates
  {
    var cdr := db.cdrs[h.call];
    if h.answered && cdr.sellRate.Some? then
      var rate := ToRatingFx(db.rates[cdr.sellRate.value], cdr.sellFx);
      PriceMonotone(Max(h.billsec, 0), Max(h.billsec, 0), rate);
      Some(Price(Max(h.billsec, 0), rate))
    else None
  }

  /** The cost of the answering carrier, when a buy rate is known for it. */
  function CarrierCost(db: Db, h: Hangup, env: Costing): Option<Fee>
    requires h.call in db.cdrs
  {
    var cdr := db.cdrs[h.call];
    if h.answered && cdr.sellRate.Some? && h.carrier.Some? then
      match BuyRateFor(cdr.attempts, h.carrier.value)
      case None => None
      case Some(id) =>
        if id !in db.rates then None
        else
          var rate := ToRatingFx(db.rates[id], env.Fx(id, h.carrier.value));
          PriceMonotone(Max(h.billsec, 0), Max(h.billsec, 0), rate);
          Some(Fee(h.carrier.value, Price(Max(h.billsec, 0), rate)))
    else None
  }

  datatype BillResult = NoCdr | AlreadyBilled | Failed | Billed

  /** What Bill finds under the row locks. */
  function BillOutcome(db: Db, h: Hangup): BillResult {
    if h.call !in db.cdrs then NoCdr
    else if db.cdrs[h.call].billed then AlreadyBilled
    else if h.answered && db.cdrs[h.call].sellRate.Some? && db.cdrs[h.call].sellRate.value !in db.rates then Failed
    else if h.call in db.open && db.open[h.call].account !in db.accounts then Failed
    else Billed
  }

  /** What a call is worth: the sell price, the answering carrier's cost and its rate, the failed attempts. */
  datatype Charges = Charges(price: Option<nat>, cost: Option<Fee>, buyRate: Option<RateId>, fees: seq<Fee>) {
    function PriceDue(): nat {
      if price.Some? then price.value else 0
    }
  }

  function Assess(db: Db, h: Hangup, env: Costing): Charges
    requires BillOutcome(db, h) == Billed
  {
    var cost, attempts := CarrierCost(db, h, env), db.cdrs[h.call].attempts;
    Charges(SellPrice(db, h), cost, if cost.Some? then BuyRateFor(attempts, cost.value.carrier) else None,
            AttemptFees(db.rates, env, attempts))
  }

  /** The CDR as billing finalises it. */
  function BilledCdr(cdr: Cdr, row: Option<OpenCall>, ch: Charges): Cdr
  {
    cdr.(billed := true,
         sellPrice := if ch.price.Some? then ch.price.value else cdr.sellPrice,
         buyRate := if ch.cost.Some? then ch.buyRate else cdr.buyRate,
         cost := (if ch.cost.Some? then ch.cost.value.amount else cdr.cost) + FeeTotal(ch.fees),
         released := if row.Some? then row.value.reserved else cdr.released,
         charged := if row.Some? && ch.PriceDue() > 0 then ch.PriceDue() else cdr.charged)
  }

  /** The cost entries of a call: the answering carrier, then the failed attempts. */
  function PostCosts(db: Db, call: CallId, cost: Option<Fee>, fees: seq<Fee>): (r: Db)
    ensures r.accounts.Keys == db.accounts.Keys
  {
    var d := if cost.Some? && cost.value.amount > 0 && Carrier(cost.value.carrier) in db.accounts
             then PostTx(db, Carrier(cost.value.carrier), Some(call), Cost, 0 - cost.value.amount) else db;
    PostFees(d, call, fees)
  }

  /** The customer's side: the reservation back, then the charge. */
  function SettleTx(db: Db, row: OpenCall, call: CallId, price: nat): Db
    requires row.account in db.accounts
  {
    var d := ReleaseTx(db, row.account, call, row.reserved);
    if price > 0 then PostTx(d, row.account, Some(call), Charge, 0 - price) else d
  }

  function CloseCall(db: Db, call: CallId, cdr: Cdr): Db {
    db.(open := db.open - {call}, cdrs := db.cdrs[call := cdr])
  }

  function OpenRow(db: Db, call: CallId): Option<OpenCall> {
    if call in db.open then Some(db.open[call]) else None
  }

  /** All the row changes of a billed call. */
  function ChargeTx(db: Db, call: CallId, ch: Charges): Db
    requires call in db.cdrs && (call in db.open ==> db.open[call].account in db.accounts)
  {
    var closed := CloseCall(db, call, BilledCdr(db.cdrs[call], OpenRow(db, call), ch));
    var costed := PostCosts(closed, call, ch.cost, ch.fees);
    if call in db.open then SettleTx(costed, db.open[call], call, ch.PriceDue()) else costed
  }

  function BillTx(db: Db, h: Hangup, env: Costing): Db {
    if BillOutcome(db, h) != Billed then db else ChargeTx(db, h.call, Assess(db, h, env))
  }

  /** Give a reservation back without charging and finalise the CDR. */
  function ReleaseReservationTx(db: Db, call: CallId): Db {
    if call !in db.cdrs || db.cdrs[call].billed then db
    else if call !in db.open then CloseCall(db, call, db.cdrs[call].(billed := true))
    else if db.open[call].account !in db.accounts then db
    else
      CloseCall(ReleaseTx(db, db.open[call].account, call, db.open[call].reserved), call,
                db.cdrs[call].(billed := true, released := db.open[call].reserved))
  }

  // ---- operators ----

  /** Kinds an operator posts. */
  predicate OperatorKind(k: Kind) {
    k.Topup? || k.Adjustment? || k.Refund?
  }

  function OperatorPostTx(db: Db, o: Owner, kind: Kind, amount: int): Db {
    if o !in db.accounts || !OperatorKind(kind) || amount == 0 || (amount < 0 && !kind.Adjustment?) then db
    else PostTx(db, o, None, kind, amount)
  }

  function CreditTx(db: Db, o: Owner, credit: nat): Db {
    if o !in db.accounts then db
    else db.(accounts := db.accounts[o := db.accounts[o].(credit := credit)])
  }

  function EnsureAccountTx(db: Db, o: Owner): Db {
    if o in db.accounts then db else db.(accounts := db.accounts[o := Account(0, 0, 0)])
  }

  function UpsertRateTx(db: Db, id: RateId, row: Rate): Db {
    db.(rates := db.rates[id := row])
  }

  /** A CDR's sell rate and buy rate refer to rate rows. */
  predicate Refers(cdr: Cdr, ids: set<RateId>) {
    (cdr.sellRate.Some? && cdr.sellRate.value in ids) || (cdr.buyRate.Some? && cdr.buyRate.value in ids)
  }

  /** Delete rate rows: all of them, or none when a CDR refers to one. */
  function DropRatesTx(db: Db, ids: set<RateId>): Db {
    if exists c | c in db.cdrs :: Refers(db.cdrs[c], ids) then db else db.(rates := db.rates - ids)
  }

  // ---- runs ----

  datatype Step =
    | Setup(s: SetupRequest)
    | Reject(call: CallId)
    | AddAttempt(call: CallId, attempt: Attempt)
    | Bill(h: Hangup, env: Costing)
    | GiveBack(call: CallId)
    | Operator(owner: Owner, kind: Kind, amount: int)
    | SetCredit(owner: Owner, credit: nat)
    | OpenAccount(owner: Owner)
    | SetRate(id: RateId, row: Rate)
    | DropRates(ids: set<RateId>)

  function Apply(db: Db, step: Step, reserveMinutes: int): Db {
    match step
    case Setup(s) => SetupTx(db, s, reserveMinutes)
    case Reject(call) => RejectTx(db, call)
    case AddAttempt(call, a) => AttemptTx(db, call, a)
    case Bill(h, env) => BillTx(db, h, env)
    case GiveBack(call) => ReleaseReservationTx(db, call)
    case Operator(o, kind, amount) => OperatorPostTx(db, o, kind, amount)
    case SetCredit(o, credit) => CreditTx(db, o, credit)
    case OpenAccount(o) => EnsureAccountTx(db, o)
    case SetRate(id, row) => UpsertRateTx(db, id, row)
    case DropRates(ids) => DropRatesTx(db, ids)
  }

  function Exec(db: Db, steps: seq<Step>, reserveMinutes: int): Db
    decreases |steps|
  {
    if steps == [] then db
    else Exec(Apply(db, steps[0], reserveMinutes), steps[1..], reserveMinutes)
  }
}
