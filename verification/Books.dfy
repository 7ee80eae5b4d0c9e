/** What the money tables must agree on, and that every transaction keeps it.

The reconcile report compares three figures per account; beside it stand the links between CDRs
and open reservations and the money of each single call.  All of it holds in every state reachable
by setups with fresh call ids and any other steps, in any order and number.
*/
module Books {
  import opened Basics
  import opened Ledger

  // ---- figures of one account ----

  /** Sums of an account's ledger entries: those that move the balance, and those that move reservations (negated). */
  datatype Figures = Figures(balance: int, reserved: int)

  function Moved(f: Figures, e: Entry): Figures {
    if e.kind.Reserve? || e.kind.Release? then f.(reserved := f.reserved - e.amount)
    else f.(balance := f.balance + e.amount)
  }

  function FiguresOf(l: seq<Entry>, o: Owner): Figures {
    if l == [] then Figures(0, 0)
    else
      var f := FiguresOf(l[..|l| - 1], o);
      if l[|l| - 1].account == o then Moved(f, l[|l| - 1]) else f
  }

  // ---- entries of one call ----

  /** Number and total of a call's entries, by kind. */
  datatype Tally = Tally(reserves: nat, reserved: int, releases: nat, released: int,
                         charges: nat, charged: int, costs: nat, cost: int)

  const NOTHING := Tally(0, 0, 0, 0, 0, 0, 0, 0)

  function Counted(t: Tally, e: Entry): Tally {
    match e.kind
    case Reserve => t.(reserves := t.reserves + 1, reserved := t.reserved - e.amount)
    case Release => t.(releases := t.releases + 1, released := t.released + e.amount)
    case Charge => t.(charges := t.charges + 1, charged := t.charged - e.amount)
    case Cost => t.(costs := t.costs + 1, cost := t.cost - e.amount)
    case _ => t
  }

  function TallyOf(l: seq<Entry>, c: CallId): Tally {
    if l == [] then NOTHING
    else
      var t := TallyOf(l[..|l| - 1], c);
      if l[|l| - 1].call == Some(c) then Counted(t, l[|l| - 1]) else t
  }

  lemma {:induction false} Appended(l: seq<Entry>, e: Entry)
    ensures forall o :: FiguresOf(l + [e], o) == if e.account == o then Moved(FiguresOf(l, o), e) else FiguresOf(l, o)
    ensures forall c: CallId ::
      TallyOf(l + [e], c) == if e.call == Some(c) then Counted(TallyOf(l, c), e) else TallyOf(l, c)
  {
    assert (l + [e])[..|l|] == l;
  }

  // ---- open reservations of an account ----

  function Held(row: OpenCall, o: Owner): nat {
    if row.account == o then row.reserved else 0
  }

  ghost function AnyCall(open: map<CallId, OpenCall>): (c: CallId)
    requires |open| > 0
    ensures c in open
  {
    var c :| c in open; c
  }

  ghost function OpenSum(open: map<CallId, OpenCall>, o: Owner): nat
    decreases |open|
  {
    if |open| == 0 then 0
    else
      var c := AnyCall(open);
      Held(open[c], o) + OpenSum(open - {c}, o)
  }

  lemma {:induction false} OpenSumSplit(open: map<CallId, OpenCall>, c: CallId, o: Owner)
    requires c in open
    ensures OpenSum(open, o) == Held(open[c], o) + OpenSum(open - {c}, o)
    decreases |open|
  {
    var p := AnyCall(open);
    if p != c {
      var rest, other := open - {p}, open - {c};
      OpenSumSplit(rest, c, o);
      OpenSumSplit(other, p, o);
      assert rest - {c} == other - {p};
    }
  }

  lemma {:induction false} OpenSumAdd(open: map<CallId, OpenCall>, c: CallId, row: OpenCall, o: Owner)
    requires c !in open
    ensures OpenSum(open[c := row], o) == Held(row, o) + OpenSum(open, o)
  {
    OpenSumSplit(open[c := row], c, o);
    assert open[c := row] - {c} == open;
  }

  // ---- the reconcile report ----

  datatype ReconcileRow = ReconcileRow(balance: int, ledgerBalance: int, reserved: int,
                                       openReserved: int, ledgerReserved: int) {
    predicate OK() {
      balance == ledgerBalance && reserved == openReserved && reserved == ledgerReserved
    }
  }

  /** The row of an account; an account that does not exist yet has nothing anywhere. */
  ghost function Reconcile(db: Db, o: Owner): ReconcileRow {
    var acc := if o in db.accounts then db.accounts[o] else Account(0, 0, 0);
    ReconcileRow(acc.balance, FiguresOf(db.ledger, o).balance, acc.reserved,
                 OpenSum(db.open, o), FiguresOf(db.ledger, o).reserved)
  }

  ghost predicate Reconciles(db: Db) {
    forall o :: Reconcile(db, o).OK()
  }

  // ---- links between the tables ----

  /** A CDR is unbilled exactly when its open reservation exists; a reservation is on an existing customer account. */
  ghost predicate Linked(db: Db) {
    && (forall c | c in db.cdrs :: !db.cdrs[c].billed <==> c in db.open)
    && (forall c | c in db.open :: c in db.cdrs && db.open[c].account.Customer? && db.open[c].account in db.accounts)
  }

  // ---- the money of one call ----

  /** While open: reserved once, nothing returned, charged or costed.  Once billed: what was
      reserved was returned, at most once, and the charge is the sell price, at most once. */
  ghost predicate CallBalanced(db: Db, c: CallId) {
    var t := TallyOf(db.ledger, c);
    if c !in db.cdrs then
      t == NOTHING
    else if c in db.open then
      && t == NOTHING.(reserves := 1, reserved := db.open[c].reserved)
      && db.cdrs[c].cost == db.cdrs[c].charged == db.cdrs[c].sellPrice == db.cdrs[c].released == 0
    else
      && t.reserves <= 1 && t.releases <= 1 && t.charges <= 1
      && t.released == t.reserved == db.cdrs[c].released
      && t.charged == db.cdrs[c].charged == db.cdrs[c].sellPrice
  }

  ghost predicate Inv(db: Db) {
    Reconciles(db) && Linked(db) && forall c :: CallBalanced(db, c)
  }

  lemma EmptyInv()
    ensures Inv(EMPTY)
  {
  }

  // ---- cost entries ----

  /** d is db after cost entries of one call: customers, reservations and other calls are
      untouched, and every balance moved with its entries. */
  ghost predicate CostsOnly(db: Db, d: Db, call: CallId) {
    && d.open == db.open && d.cdrs == db.cdrs && d.rates == db.rates
    && d.accounts.Keys == db.accounts.Keys
    && (forall o :: CostsOnlyAccount(db, d, o))
    && (forall c :: CostsOnlyCall(db, d, call, c))
  }

  ghost predicate CostsOnlyAccount(db: Db, d: Db, o: Owner)
    requires d.accounts.Keys == db.accounts.Keys
  {
    var f, g := FiguresOf(db.ledger, o), FiguresOf(d.ledger, o);
    && f.reserved == g.reserved
    && (o !in db.accounts || o.Customer? ==> f == g)
    && (o in db.accounts ==>
          d.accounts[o] == db.accounts[o].(balance := db.accounts[o].balance + g.balance - f.balance))
  }

  ghost predicate CostsOnlyCall(db: Db, d: Db, call: CallId, c: CallId) {
    var t, u := TallyOf(db.ledger, c), TallyOf(d.ledger, c);
    if c == call then u == t.(costs := u.costs, cost := u.cost) else u == t
  }

  lemma {:induction false} PostIsCostsOnly(db: Db, o: Owner, call: CallId, amount: int)
    requires o in db.accounts && o.Carrier?
    ensures CostsOnly(db, PostTx(db, o, Some(call), Cost, amount), call)
  {
    Appended(db.ledger, Entry(o, Some(call), Cost, amount, db.accounts[o].balance + amount));
  }

  lemma {:induction false} CostsOnlyTrans(db: Db, m: Db, d: Db, call: CallId)
    requires CostsOnly(db, m, call) && CostsOnly(m, d, call)
    ensures CostsOnly(db, d, call)
  {
    forall o
      ensures CostsOnlyAccount(db, d, o)
    {
      assert CostsOnlyAccount(db, m, o) && CostsOnlyAccount(m, d, o);
    }
    forall c
      ensures CostsOnlyCall(db, d, call, c)
    {
      assert CostsOnlyCall(db, m, call, c) && CostsOnlyCall(m, d, call, c);
    }
  }

  lemma {:induction false} PostFeesIsCostsOnly(db: Db, call: CallId, fees: seq<Fee>)
    ensures CostsOnly(db, PostFees(db, call, fees), call)
  {
    if fees != [] {
      var f := fees[|fees| - 1];
      var d := PostFees(db, call, fees[..|fees| - 1]);
      PostFeesIsCostsOnly(db, call, fees[..|fees| - 1]);
      if Carrier(f.carrier) in d.accounts {
        PostIsCostsOnly(d, Carrier(f.carrier), call, 0 - f.amount);
        CostsOnlyTrans(db, d, PostFees(db, call, fees), call);
      }
    }
  }

  lemma {:induction false} PostCostsIsCostsOnly(db: Db, call: CallId, cost: Option<Fee>, fees: seq<Fee>)
    ensures CostsOnly(db, PostCosts(db, call, cost, fees), call)
  {
    if cost.Some? && cost.value.amount > 0 && Carrier(cost.value.carrier) in db.accounts {
      var d := PostTx(db, Carrier(cost.value.carrier), Some(call), Cost, 0 - cost.value.amount);
      PostIsCostsOnly(db, Carrier(cost.value.carrier), call, 0 - cost.value.amount);
      PostFeesIsCostsOnly(d, call, fees);
      CostsOnlyTrans(db, d, PostCosts(db, call, cost, fees), call);
    } else {
      PostFeesIsCostsOnly(db, call, fees);
    }
  }

  // ---- settlement ----

  /** Every reservation is covered by the account's reserved figure. */
  lemma {:induction false} ReservationCovered(db: Db, c: CallId)
    requires Reconciles(db) && c in db.open && db.open[c].account in db.accounts
    ensures db.accounts[db.open[c].account].reserved >= db.open[c].reserved
  {
    var o := db.open[c].account;
    assert Reconcile(db, o).OK();
    OpenSumSplit(db.open, c, o);
  }

  /** Returning a reservation never meets the clamp at zero. */
  lemma {:induction false} ReleaseNeverClamps(db: Db, c: CallId)
    requires Inv(db) && c in db.open
    ensures var o := db.open[c].account;
            var d := ReleaseTx(db, o, c, db.open[c].reserved);
            d.accounts[o].reserved == db.accounts[o].reserved - db.open[c].reserved
  {
    ReservationCovered(db, c);
  }

  function ReleasedTally(t: Tally, amount: nat): Tally {
    if amount == 0 then t else t.(releases := t.releases + 1, released := t.released + amount)
  }

  function ChargedTally(t: Tally, price: nat): Tally {
    if price == 0 then t else t.(charges := t.charges + 1, charged := t.charged + price)
  }

  lemma {:induction false} ReleaseEffect(db: Db, o: Owner, call: CallId, amount: nat)
    requires o in db.accounts && db.accounts[o].reserved >= amount
    ensures var d := ReleaseTx(db, o, call, amount);
      && d == db.(accounts := d.accounts, ledger := d.ledger)
      && d.accounts == db.accounts[o := db.accounts[o].(reserved := db.accounts[o].reserved - amount)]
      && (forall p :: FiguresOf(d.ledger, p) ==
            var f := FiguresOf(db.ledger, p);
            if p == o then f.(reserved := f.reserved - amount) else f)
      && (forall c: CallId :: TallyOf(d.ledger, c) ==
            if c == call then ReleasedTally(TallyOf(db.ledger, c), amount) else TallyOf(db.ledger, c))
  {
    if amount == 0 {
      assert db.accounts == db.accounts[o := db.accounts[o]];
    } else {
      Appended(db.ledger, Entry(o, Some(call), Release, amount, db.accounts[o].balance));
    }
  }

  lemma {:induction false} ChargeEffect(db: Db, o: Owner, call: CallId, price: nat)
    requires o in db.accounts && price > 0
    ensures var d := PostTx(db, o, Some(call), Charge, 0 - price);
      && d == db.(accounts := d.accounts, ledger := d.ledger)
      && d.accounts == db.accounts[o := db.accounts[o].(balance := db.accounts[o].balance - price)]
      && (forall p :: FiguresOf(d.ledger, p) ==
            var f := FiguresOf(db.ledger, p);
            if p == o then f.(balance := f.balance - price) else f)
      && (forall c: CallId :: TallyOf(d.ledger, c) ==
            if c == call then ChargedTally(TallyOf(db.ledger, c), price) else TallyOf(db.ledger, c))
  {
    Appended(db.ledger, Entry(o, Some(call), Charge, 0 - price, db.accounts[o].balance - price));
  }

  /** Release and charge: the account moves by exactly the entries written for the call. */
  lemma {:induction false} SettleEffect(db: Db, row: OpenCall, call: CallId, price: nat)
    requires row.account in db.accounts && db.accounts[row.account].reserved >= row.reserved
    ensures var d := SettleTx(db, row, call, price);
      && d == db.(accounts := d.accounts, ledger := d.ledger)
      && d.accounts == db.accounts[row.account := Account(db.accounts[row.account].balance - price,
                                                          db.accounts[row.account].credit,
                                                          db.accounts[row.account].reserved - row.reserved)]
      && (forall o :: FiguresOf(d.ledger, o) ==
            var f := FiguresOf(db.ledger, o);
            if o == row.account then Figures(f.balance - price, f.reserved - row.reserved) else f)
      && (forall c: CallId :: TallyOf(d.ledger, c) ==
            if c == call then ChargedTally(ReleasedTally(TallyOf(db.ledger, c), row.reserved), price)
            else TallyOf(db.ledger, c))
  {
    ReleaseEffect(db, row.account, call, row.reserved);
    var mid := ReleaseTx(db, row.account, call, row.reserved);
    if price > 0 {
      ChargeEffect(mid, row.account, call, price);
      var d := PostTx(mid, row.account, Some(call), Charge, 0 - price);
      assert SettleTx(db, row, call, price) == d;
      forall o
        ensures FiguresOf(d.ledger, o) ==
          var f := FiguresOf(db.ledger, o);
          if o == row.account then Figures(f.balance - price, f.reserved - row.reserved) else f
      {
        assert FiguresOf(mid.ledger, o).balance == FiguresOf(db.ledger, o).balance;
      }
    } else {
      assert SettleTx(db, row, call, price) == mid;
    }
  }

  lemma {:induction false} OpenSumsAfterClose(open: map<CallId, OpenCall>, c: CallId)
    requires c in open
    ensures forall o :: OpenSum(open, o) == Held(open[c], o) + OpenSum(open - {c}, o)
  {
    forall o
      ensures OpenSum(open, o) == Held(open[c], o) + OpenSum(open - {c}, o)
    {
      OpenSumSplit(open, c, o);
    }
  }

  /** Closing an open call with a price: release, charge and cost entries leave the books balanced. */
  lemma {:induction false} ChargeKeepsInv(db: Db, call: CallId, ch: Charges)
    requires Inv(db) && call in db.open
    ensures Inv(ChargeTx(db, call, ch))
  {
    var row := db.open[call];
    var closed := CloseCall(db, call, BilledCdr(db.cdrs[call], Some(row), ch));
    var costed := PostCosts(closed, call, ch.cost, ch.fees);
    PostCostsIsCostsOnly(closed, call, ch.cost, ch.fees);
    ReservationCovered(db, call);
    SettleReconciles(db, call, closed.cdrs[call], costed, ch.PriceDue());
    assert CallBalanced(db, call);
    SettleBalances(db, call, closed.cdrs[call], costed, ch.PriceDue());
  }

  lemma {:induction false} SettleReconciles(db: Db, call: CallId, cdr: Cdr, costed: Db, price: nat)
    requires Reconciles(db) && Linked(db) && call in db.open
    requires CostsOnly(CloseCall(db, call, cdr), costed, call)
    requires db.accounts[db.open[call].account].reserved >= db.open[call].reserved
    ensures Reconciles(SettleTx(costed, db.open[call], call, price))
  {
    var row := db.open[call];
    var d := SettleTx(costed, row, call, price);
    assert CostsOnlyAccount(CloseCall(db, call, cdr), costed, row.account);
    SettleEffect(costed, row, call, price);
    OpenSumsAfterClose(db.open, call);
    forall o
      ensures Reconcile(d, o).OK()
    {
      assert Reconcile(db, o).OK();
      assert CostsOnlyAccount(CloseCall(db, call, cdr), costed, o);
    }
  }

  lemma {:induction false} SettleBalances(db: Db, call: CallId, cdr: Cdr, costed: Db, price: nat)
    requires Linked(db) && call in db.open && forall c :: CallBalanced(db, c)
    requires cdr.billed && cdr.released == db.open[call].reserved && cdr.charged == cdr.sellPrice == price
    requires CostsOnly(CloseCall(db, call, cdr), costed, call)
    requires db.accounts[db.open[call].account].reserved >= db.open[call].reserved
    ensures var d := SettleTx(costed, db.open[call], call, price);
            Linked(d) && forall c :: CallBalanced(d, c)
  {
    var row := db.open[call];
    var d := SettleTx(costed, row, call, price);
    assert CostsOnlyAccount(CloseCall(db, call, cdr), costed, row.account);
    SettleEffect(costed, row, call, price);
    forall c
      ensures CallBalanced(d, c)
    {
      assert CallBalanced(db, c);
      assert CostsOnlyCall(CloseCall(db, call, cdr), costed, call, c);
    }
  }

  lemma {:induction false} NoCosts(db: Db, call: CallId)
    ensures CostsOnly(db, db, call)
  {
  }

  lemma {:induction false} GiveBackKeepsInv(db: Db, call: CallId)
    requires Inv(db)
    ensures Inv(ReleaseReservationTx(db, call))
  {
    if call in db.cdrs && !db.cdrs[call].billed {
      var cdr := db.cdrs[call].(billed := true, released := db.open[call].reserved);
      var closed := CloseCall(db, call, cdr);
      ReservationCovered(db, call);
      NoCosts(closed, call);
      assert CallBalanced(db, call);
      SettleReconciles(db, call, cdr, closed, 0);
      SettleBalances(db, call, cdr, closed, 0);
      assert ReleaseReservationTx(db, call) == SettleTx(closed, db.open[call], call, 0);
    }
  }
}
