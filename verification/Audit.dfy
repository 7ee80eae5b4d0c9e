/** The ledger as an audit trail: it only grows, a settled call is never touched again, every entry
carries the balance it left, and the cost entries of a call add up to the cost on its CDR. */
module Audit {
  import opened Basics
  import opened Ledger
  import opened Books
  import opened Settlement

  // ---- append-only ----

  /** m is l with entries of one call (or of no call) added at the end. */
  predicate Extends(l: seq<Entry>, m: seq<Entry>, call: Option<CallId>) {
    l <= m && forall i | |l| <= i < |m| :: m[i].call == call
  }

  function StepCall(step: Step): Option<CallId> {
    match step
    case Setup(s) => Some(s.call)
    case Bill(h, _) => Some(h.call)
    case GiveBack(call) => Some(call)
    case _ => None
  }

  lemma {:induction false} PostFeesExtends(db: Db, call: CallId, fees: seq<Fee>)
    ensures Extends(db.ledger, PostFees(db, call, fees).ledger, Some(call))
    ensures var d := PostFees(db, call, fees); d.open == db.open && d.cdrs == db.cdrs && d.rates == db.rates
  {
    if fees != [] {
      PostFeesExtends(db, call, fees[..|fees| - 1]);
    }
  }

  lemma {:induction false} PostCostsExtends(db: Db, call: CallId, cost: Option<Fee>, fees: seq<Fee>)
    ensures var d := PostCosts(db, call, cost, fees);
      Extends(db.ledger, d.ledger, Some(call)) && d.open == db.open && d.cdrs == db.cdrs && d.rates == db.rates
  {
    PostFeesExtends(db, call, fees);
    if cost.Some? && cost.value.amount > 0 && Carrier(cost.value.carrier) in db.accounts {
      PostFeesExtends(PostTx(db, Carrier(cost.value.carrier), Some(call), Cost, 0 - cost.value.amount), call, fees);
    }
  }

  lemma {:induction false} ChargeExtends(db: Db, call: CallId, ch: Charges)
    requires call in db.cdrs && (call in db.open ==> db.open[call].account in db.accounts)
    ensures var d := ChargeTx(db, call, ch);
      && Extends(db.ledger, d.ledger, Some(call))
      && d.rates == db.rates && d.cdrs == db.cdrs[call := BilledCdr(db.cdrs[call], OpenRow(db, call), ch)]
  {
    PostCostsExtends(CloseCall(db, call, BilledCdr(db.cdrs[call], OpenRow(db, call), ch)), call, ch.cost, ch.fees);
  }

  /** Every step only appends, and only entries of its own call. */
  lemma {:induction false} StepExtends(db: Db, step: Step, reserveMinutes: int)
    ensures Extends(db.ledger, Apply(db, step, reserveMinutes).ledger, StepCall(step))
  {
    match step
    case Bill(h, env) =>
      if BillOutcome(db, h) == Billed {
        ChargeExtends(db, h.call, Assess(db, h, env));
      }
    case Setup(s) => ReserveExtends(db, s, SetupAmount(s, reserveMinutes));
    case _ =>
  }

  lemma {:induction false} ReserveExtends(db: Db, s: SetupRequest, amount: nat)
    ensures Extends(db.ledger, ReserveCallTx(db, s, amount).ledger, Some(s.call))
    ensures forall c | c in db.cdrs ::
      c in ReserveCallTx(db, s, amount).cdrs && ReserveCallTx(db, s, amount).cdrs[c] == db.cdrs[c]
  {
  }

  function CallEntries(l: seq<Entry>, c: CallId): seq<Entry> {
    if l == [] then []
    else CallEntries(l[..|l| - 1], c) + (if l[|l| - 1].call == Some(c) then [l[|l| - 1]] else [])
  }

  lemma {:induction false} OtherEntries(l: seq<Entry>, m: seq<Entry>, call: Option<CallId>, c: CallId)
    requires Extends(l, m, call) && call != Some(c)
    ensures CallEntries(m, c) == CallEntries(l, c)
    decreases |m|
  {
    if |l| < |m| {
      OtherEntries(l, m[..|m| - 1], call, c);
    } else {
      assert l == m;
    }
  }

  /** What a CDR says about money and settlement, without its list of attempts. */
  function Outcome(cdr: Cdr): Cdr {
    cdr.(attempts := [])
  }

  ghost predicate IsSettled(db: Db, c: CallId) {
    c in db.cdrs && db.cdrs[c].billed
  }

  lemma {:induction false} SettledStep(db: Db, step: Step, reserveMinutes: int, c: CallId)
    requires IsSettled(db, c) && Fresh(db, step)
    ensures var d := Apply(db, step, reserveMinutes);
      && IsSettled(d, c)
      && Outcome(d.cdrs[c]) == Outcome(db.cdrs[c])
      && CallEntries(d.ledger, c) == CallEntries(db.ledger, c)
  {
    SettledStepEntries(db, step, reserveMinutes, c);
    SettledStepCdr(db, step, reserveMinutes, c);
  }

  lemma {:induction false} SettledStepCdr(db: Db, step: Step, reserveMinutes: int, c: CallId)
    requires IsSettled(db, c)
    ensures var d := Apply(db, step, reserveMinutes);
      IsSettled(d, c) && Outcome(d.cdrs[c]) == Outcome(db.cdrs[c])
  {
    match step
    case Bill(h, env) =>
      if BillOutcome(db, h) == Billed {
        ChargeExtends(db, h.call, Assess(db, h, env));
      }
    case Setup(s) => ReserveExtends(db, s, SetupAmount(s, reserveMinutes));
    case _ =>
  }

  lemma {:induction false} SettledStepEntries(db: Db, step: Step, reserveMinutes: int, c: CallId)
    requires IsSettled(db, c) && Fresh(db, step)
    ensures CallEntries(Apply(db, step, reserveMinutes).ledger, c) == CallEntries(db.ledger, c)
  {
    if StepCall(step) != Some(c) {
      StepExtends(db, step, reserveMinutes);
      OtherEntries(db.ledger, Apply(db, step, reserveMinutes).ledger, StepCall(step), c);
    }
  }

  /** Once a call is settled, no later step of any kind changes its entries or its CDR's money. */
  lemma {:induction false} SettledForever(db: Db, steps: seq<Step>, reserveMinutes: int, c: CallId)
    requires IsSettled(db, c) && FreshRun(db, steps, reserveMinutes)
    ensures var d := Exec(db, steps, reserveMinutes);
      && IsSettled(d, c)
      && Outcome(d.cdrs[c]) == Outcome(db.cdrs[c])
      && CallEntries(d.ledger, c) == CallEntries(db.ledger, c)
    decreases |steps|
  {
    if steps != [] {
      SettledStep(db, steps[0], reserveMinutes, c);
      SettledForever(Apply(db, steps[0], reserveMinutes), steps[1..], reserveMinutes, c);
    }
  }

  // ---- triggers of one call ----

  /** A hangup event (from either source), a reconciler pass or a release request for call c. */
  predicate Triggers(step: Step, c: CallId) {
    (step.Bill? && step.h.call == c) || (step.GiveBack? && step.call == c)
  }

  predicate Settles(db: Db, step: Step, c: CallId)
    requires Triggers(step, c)
  {
    && c in db.cdrs && !db.cdrs[c].billed
    && (step.Bill? ==> BillOutcome(db, step.h) == Billed)
    && (step.GiveBack? ==> c in db.open ==> db.open[c].account in db.accounts)
  }

  lemma {:induction false} TriggerOnce(db: Db, step: Step, reserveMinutes: int, c: CallId)
    requires Triggers(step, c)
    ensures var d := Apply(db, step, reserveMinutes);
      if Settles(db, step, c) then IsSettled(d, c) else d == db
  {
    if step.Bill? && Settles(db, step, c) {
      ChargeExtends(db, c, Assess(db, step.h, step.env));
    }
  }

  lemma {:induction false} TriggersAfterSettlement(db: Db, ts: seq<Step>, reserveMinutes: int, c: CallId)
    requires IsSettled(db, c) && forall i | 0 <= i < |ts| :: Triggers(ts[i], c)
    ensures Exec(db, ts, reserveMinutes) == db
    decreases |ts|
  {
    if ts != [] {
      TriggerOnce(db, ts[0], reserveMinutes, c);
      TriggersAfterSettlement(db, ts[1..], reserveMinutes, c);
    }
  }

  /** Any number of triggers in any order: the whole database is the one left by the first trigger
      that commits, or unchanged when none does. */
  lemma {:induction false} FirstTriggerDecides(db: Db, ts: seq<Step>, reserveMinutes: int, c: CallId, k: nat)
    requires k <= |ts| && forall i | 0 <= i < |ts| :: Triggers(ts[i], c)
    requires forall i | 0 <= i < k :: !Settles(db, ts[i], c)
    requires k < |ts| ==> Settles(db, ts[k], c)
    ensures Exec(db, ts, reserveMinutes) == if k < |ts| then Apply(db, ts[k], reserveMinutes) else db
    decreases |ts|
  {
    if ts != [] {
      TriggerOnce(db, ts[0], reserveMinutes, c);
      if k == 0 {
        TriggersAfterSettlement(Apply(db, ts[0], reserveMinutes), ts[1..], reserveMinutes, c);
      } else {
        FirstTriggerDecides(db, ts[1..], reserveMinutes, c, k - 1);
      }
    }
  }

  /** Whatever triggers arrive for an open call, it is returned in full, once, as soon as one commits,
      and charged at most once. */
  lemma {:induction false} ReturnedExactlyOnce(db: Db, ts: seq<Step>, reserveMinutes: int, c: CallId, k: nat)
    requires Inv(db) && c in db.open
    requires k < |ts| && forall i | 0 <= i < |ts| :: Triggers(ts[i], c)
    requires forall i | 0 <= i < k :: !Settles(db, ts[i], c)
    requires Settles(db, ts[k], c)
    ensures var d := Exec(db, ts, reserveMinutes);
      var t := TallyOf(d.ledger, c);
      && c !in d.open
      && t.released == db.open[c].reserved
      && t.releases <= 1 && t.charges <= 1
      && t.charged == if ts[k].Bill? then Assess(db, ts[k].h, ts[k].env).PriceDue() else 0
  {
    FirstTriggerDecides(db, ts, reserveMinutes, c, k);
    TriggerOnce(db, ts[k], reserveMinutes, c);
    StepKeepsInv(db, ts[k], reserveMinutes);
    assert CallBalanced(db, c);
    assert CallBalanced(Apply(db, ts[k], reserveMinutes), c);
    if ts[k].Bill? {
      ChargeExtends(db, c, Assess(db, ts[k].h, ts[k].env));
    }
  }

  // ---- references to rate rows ----

  predicate RatesExist(rates: set<RateId>, cdr: Cdr) {
    && (cdr.sellRate.Some? ==> cdr.sellRate.value in rates)
    && (cdr.buyRate.Some? ==> cdr.buyRate.value in rates)
  }

  /** The rate rows a CDR refers to exist. */
  ghost predicate Referenced(db: Db) {
    forall c | c in db.cdrs :: RatesExist(db.rates.Keys, db.cdrs[c])
  }

  lemma {:induction false} BillKeepsReferenced(db: Db, h: Hangup, env: Costing)
    requires Referenced(db)
    ensures Referenced(BillTx(db, h, env))
  {
    if BillOutcome(db, h) == Billed {
      var ch := Assess(db, h, env);
      ChargeExtends(db, h.call, ch);
      assert ch.cost.Some? ==> ch.buyRate.Some? && ch.buyRate.value in db.rates;
      assert RatesExist(db.rates.Keys, db.cdrs[h.call]);
    }
  }

  lemma {:induction false} StepKeepsReferenced(db: Db, step: Step, reserveMinutes: int)
    requires Referenced(db)
    ensures Referenced(Apply(db, step, reserveMinutes))
  {
    match step
    case Bill(h, env) => BillKeepsReferenced(db, h, env);
    case DropRates(ids) =>
      forall c | c in db.cdrs
        ensures RatesExist(Apply(db, step, reserveMinutes).rates.Keys, db.cdrs[c])
      {
        assert RatesExist(db.rates.Keys, db.cdrs[c]);
      }
    case _ =>
  }

  /** Whatever happened before, also rates being deleted, billing never gets stuck: a call is billed by its
      first trigger, unless it was already or has no CDR. */
  lemma {:induction false} BillNeverFails(db: Db, steps: seq<Step>, reserveMinutes: int, h: Hangup)
    requires Inv(db) && Referenced(db) && FreshRun(db, steps, reserveMinutes)
    ensures BillOutcome(Exec(db, steps, reserveMinutes), h) != Failed
    decreases |steps|
  {
    if steps != [] {
      StepKeepsInv(db, steps[0], reserveMinutes);
      StepKeepsReferenced(db, steps[0], reserveMinutes);
      BillNeverFails(Apply(db, steps[0], reserveMinutes), steps[1..], reserveMinutes, h);
    } else if h.call in db.cdrs {
      assert RatesExist(db.rates.Keys, db.cdrs[h.call]);
    }
  }

  // ---- the balance each entry carries ----

  /** Entry i carries its account's balance right after it. */
  ghost predicate RunningBalances(l: seq<Entry>) {
    forall i | 0 <= i < |l| :: l[i].balanceAfter == FiguresOf(l[..i + 1], l[i].account).balance
  }

  /** The same, from the last entry back. */
  ghost predicate LastCarriesBalance(l: seq<Entry>) {
    l == [] || (LastCarriesBalance(l[..|l| - 1]) && l[|l| - 1].balanceAfter == FiguresOf(l, l[|l| - 1].account).balance)
  }

  lemma {:induction false} EveryEntryCarriesBalance(l: seq<Entry>)
    ensures LastCarriesBalance(l) <==> RunningBalances(l)
  {
    if l != [] {
      var front := l[..|l| - 1];
      EveryEntryCarriesBalance(front);
      assert l[..|l|] == l;
      forall i | 0 <= i < |front|
        ensures front[i] == l[i] && front[..i + 1] == l[..i + 1]
      {
      }
    }
  }

  /** Balances match the ledger, and so does the balance recorded on each entry. */
  ghost predicate Trail(db: Db) {
    BalancesMatch(db) && LastCarriesBalance(db.ledger)
  }

  ghost predicate BalancesMatch(db: Db) {
    forall o | o in db.accounts :: db.accounts[o].balance == FiguresOf(db.ledger, o).balance
  }

  /** One entry is appended together with its account's row. */
  lemma {:induction false} AppendKeepsTrail(db: Db, e: Entry, acc: Account, d: Db)
    requires Trail(db) && e.account in db.accounts && e.balanceAfter == acc.balance
    requires acc.balance == db.accounts[e.account].balance + if e.kind.Reserve? || e.kind.Release? then 0 else e.amount
    requires d.accounts == db.accounts[e.account := acc] && d.ledger == db.ledger + [e]
    ensures Trail(d)
  {
    Appended(db.ledger, e);
    assert d.ledger[..|d.ledger| - 1] == db.ledger;
  }

  lemma {:induction false} PostKeepsTrail(db: Db, o: Owner, call: Option<CallId>, kind: Kind, amount: int)
    requires Trail(db) && o in db.accounts && !kind.Reserve? && !kind.Release?
    ensures Trail(PostTx(db, o, call, kind, amount))
  {
    var d := PostTx(db, o, call, kind, amount);
    AppendKeepsTrail(db, Entry(o, call, kind, amount, db.accounts[o].balance + amount), d.accounts[o], d);
  }

  lemma {:induction false} ReleaseKeepsTrail(db: Db, o: Owner, call: CallId, amount: nat)
    requires Trail(db) && o in db.accounts
    ensures Trail(ReleaseTx(db, o, call, amount))
  {
    if amount > 0 {
      var d := ReleaseTx(db, o, call, amount);
      AppendKeepsTrail(db, Entry(o, Some(call), Release, amount, db.accounts[o].balance), d.accounts[o], d);
    }
  }

  lemma {:induction false} ReserveKeepsTrail(db: Db, s: SetupRequest, amount: nat)
    requires Trail(db)
    ensures Trail(ReserveCallTx(db, s, amount))
  {
    if ReserveSucceeds(db, s, amount) {
      var o, d := Customer(s.customer), ReserveCallTx(db, s, amount);
      AppendKeepsTrail(db, Entry(o, Some(s.call), Reserve, 0 - amount, db.accounts[o].balance), d.accounts[o], d);
    }
  }

  lemma {:induction false} FeesKeepTrail(db: Db, call: CallId, fees: seq<Fee>)
    requires Trail(db)
    ensures Trail(PostFees(db, call, fees))
  {
    if fees != [] {
      var f, d := fees[|fees| - 1], PostFees(db, call, fees[..|fees| - 1]);
      FeesKeepTrail(db, call, fees[..|fees| - 1]);
      if Carrier(f.carrier) in d.accounts {
        PostKeepsTrail(d, Carrier(f.carrier), Some(call), Cost, 0 - f.amount);
      }
    }
  }

  lemma {:induction false} CostsKeepTrail(db: Db, call: CallId, cost: Option<Fee>, fees: seq<Fee>)
    requires Trail(db)
    ensures Trail(PostCosts(db, call, cost, fees))
  {
    var d := db;
    if cost.Some? && cost.value.amount > 0 && Carrier(cost.value.carrier) in db.accounts {
      PostKeepsTrail(db, Carrier(cost.value.carrier), Some(call), Cost, 0 - cost.value.amount);
      d := PostTx(db, Carrier(cost.value.carrier), Some(call), Cost, 0 - cost.value.amount);
    }
    FeesKeepTrail(d, call, fees);
  }

  lemma {:induction false} ChargeKeepsTrail(db: Db, call: CallId, ch: Charges)
    requires Trail(db) && call in db.cdrs && (call in db.open ==> db.open[call].account in db.accounts)
    ensures Trail(ChargeTx(db, call, ch))
  {
    var closed := CloseCall(db, call, BilledCdr(db.cdrs[call], OpenRow(db, call), ch));
    var costed := PostCosts(closed, call, ch.cost, ch.fees);
    CostsKeepTrail(closed, call, ch.cost, ch.fees);
    if call in db.open {
      SettleKeepsTrail(costed, db.open[call], call, ch.PriceDue());
    }
  }

  lemma {:induction false} SettleKeepsTrail(db: Db, row: OpenCall, call: CallId, price: nat)
    requires Trail(db) && row.account in db.accounts
    ensures Trail(SettleTx(db, row, call, price))
  {
    ReleaseKeepsTrail(db, row.account, call, row.reserved);
    if price > 0 {
      PostKeepsTrail(ReleaseTx(db, row.account, call, row.reserved), row.account, Some(call), Charge, 0 - price);
    }
  }

  lemma {:induction false} StepKeepsTrail(db: Db, step: Step, reserveMinutes: int)
    requires Trail(db) && (forall o | o !in db.accounts :: FiguresOf(db.ledger, o).balance == 0)
    ensures Trail(Apply(db, step, reserveMinutes))
  {
    match step
    case Setup(s) => ReserveKeepsTrail(db, s, SetupAmount(s, reserveMinutes));
    case Bill(h, env) =>
      if BillOutcome(db, h) == Billed {
        ChargeKeepsTrail(db, h.call, Assess(db, h, env));
      }
    case GiveBack(call) =>
      if call in db.open && db.open[call].account in db.accounts {
        ReleaseKeepsTrail(db, db.open[call].account, call, db.open[call].reserved);
      }
    case Operator(o, kind, amount) =>
      if OperatorPostTx(db, o, kind, amount) != db {
        PostKeepsTrail(db, o, None, kind, amount);
      }
    case _ =>
  }

  /** In every reachable state each ledger entry carries the balance its account had right after it. */
  lemma {:induction false} RunningBalancesAlways(db: Db, steps: seq<Step>, reserveMinutes: int)
    requires Inv(db) && Trail(db) && FreshRun(db, steps, reserveMinutes)
    ensures RunningBalances(Exec(db, steps, reserveMinutes).ledger)
    decreases |steps|
  {
    EveryEntryCarriesBalance(db.ledger);
    if steps != [] {
      forall o | o !in db.accounts
        ensures FiguresOf(db.ledger, o).balance == 0
      {
        assert Reconcile(db, o).OK();
      }
      StepKeepsTrail(db, steps[0], reserveMinutes);
      StepKeepsInv(db, steps[0], reserveMinutes);
      RunningBalancesAlways(Apply(db, steps[0], reserveMinutes), steps[1..], reserveMinutes);
    }
  }

  // ---- costs ----

  predicate HasAccount(db: Db, f: Fee) {
    f.amount > 0 ==> Carrier(f.carrier) in db.accounts
  }

  /** Everything a call costs goes to a carrier that has an account. */
  predicate CostsHaveAccounts(db: Db, cost: Option<Fee>, fees: seq<Fee>) {
    (cost.Some? ==> HasAccount(db, cost.value)) && forall f | f in fees :: HasAccount(db, f)
  }

  lemma {:induction false} FeesPosted(db: Db, call: CallId, fees: seq<Fee>)
    ensures TallyOf(PostFees(db, call, fees).ledger, call).cost <= TallyOf(db.ledger, call).cost + FeeTotal(fees)
    ensures TallyOf(PostFees(db, call, fees).ledger, call).cost == TallyOf(db.ledger, call).cost + FeeTotal(fees)
       <==> forall f | f in fees :: HasAccount(db, f)
  {
    if fees != [] {
      var rest, f := fees[..|fees| - 1], fees[|fees| - 1];
      FeesPosted(db, call, rest);
      LastFeePosted(PostFees(db, call, rest), call, f);
      AllHaveAccounts(db, fees);
    }
  }

  lemma AllHaveAccounts(db: Db, fees: seq<Fee>)
    requires fees != []
    ensures (forall f | f in fees :: HasAccount(db, f))
       <==> HasAccount(db, fees[|fees| - 1]) && forall f | f in fees[..|fees| - 1] :: HasAccount(db, f)
  {
    var rest, f := fees[..|fees| - 1], fees[|fees| - 1];
    assert fees == rest + [f];
    assert f in fees && forall g :: g in fees <==> g in rest || g == f;
  }

  lemma {:induction false} LastFeePosted(d: Db, call: CallId, f: Fee)
    ensures var o := Carrier(f.carrier);
      var e := if o in d.accounts then PostTx(d, o, Some(call), Cost, 0 - f.amount) else d;
      TallyOf(e.ledger, call).cost == TallyOf(d.ledger, call).cost + if o in d.accounts then f.amount else 0
  {
    var o := Carrier(f.carrier);
    if o in d.accounts {
      Appended(d.ledger, Entry(o, Some(call), Cost, 0 - f.amount, d.accounts[o].balance - f.amount));
    }
  }

  function CostTotal(cost: Option<Fee>, fees: seq<Fee>): nat {
    (if cost.Some? then cost.value.amount else 0) + FeeTotal(fees)
  }

  /** The cost entries written for a call add up to its whole cost exactly when every carrier
      that is owed something has an account. */
  lemma {:induction false} CostsPostedIff(db: Db, call: CallId, cost: Option<Fee>, fees: seq<Fee>)
    ensures TallyOf(PostCosts(db, call, cost, fees).ledger, call).cost
        == TallyOf(db.ledger, call).cost + CostTotal(cost, fees)
       <==> CostsHaveAccounts(db, cost, fees)
  {
    FeesPosted(db, call, fees);
    if cost.Some? && cost.value.amount > 0 && Carrier(cost.value.carrier) in db.accounts {
      var o := Carrier(cost.value.carrier);
      var d := PostTx(db, o, Some(call), Cost, 0 - cost.value.amount);
      Appended(db.ledger, Entry(o, Some(call), Cost, 0 - cost.value.amount, d.accounts[o].balance));
      FeesPosted(d, call, fees);
      assert forall f :: HasAccount(d, f) == HasAccount(db, f);
    }
  }

  /** The cost entries of every settled call sum to the cost its CDR shows. */
  ghost predicate CostsConserved(db: Db) {
    forall c | IsSettled(db, c) :: TallyOf(db.ledger, c).cost == db.cdrs[c].cost
  }

  predicate CostsCovered(db: Db, step: Step) {
    step.Bill? && BillOutcome(db, step.h) == Billed ==>
      CostsHaveAccounts(db, Assess(db, step.h, step.env).cost, Assess(db, step.h, step.env).fees)
  }

  lemma {:induction false} ChargeConservesCosts(db: Db, call: CallId, ch: Charges)
    requires Inv(db) && CostsConserved(db) && call in db.open && CostsHaveAccounts(db, ch.cost, ch.fees)
    ensures CostsConserved(ChargeTx(db, call, ch))
  {
    var row, d := db.open[call], ChargeTx(db, call, ch);
    var closed := CloseCall(db, call, BilledCdr(db.cdrs[call], Some(row), ch));
    var costed := PostCosts(closed, call, ch.cost, ch.fees);
    CostsPostedIff(closed, call, ch.cost, ch.fees);
    PostCostsIsCostsOnly(closed, call, ch.cost, ch.fees);
    ReservationCovered(db, call);
    assert CostsOnlyAccount(closed, costed, row.account);
    SettleEffect(costed, row, call, ch.PriceDue());
    assert CallBalanced(db, call);
    forall c | IsSettled(d, c)
      ensures TallyOf(d.ledger, c).cost == d.cdrs[c].cost
    {
      assert CostsOnlyCall(closed, costed, call, c);
      assert c != call ==> IsSettled(db, c);
    }
  }

  lemma {:induction false} OthersConserveCosts(db: Db, step: Step, reserveMinutes: int)
    requires Inv(db) && CostsConserved(db) && Fresh(db, step) && !step.Bill?
    ensures CostsConserved(Apply(db, step, reserveMinutes))
  {
    if step.Setup? {
      SetupConservesCosts(db, step.s, SetupAmount(step.s, reserveMinutes));
    } else {
      var d := Apply(db, step, reserveMinutes);
      forall c | IsSettled(d, c)
        ensures TallyOf(d.ledger, c).cost == d.cdrs[c].cost
      {
        assert CallBalanced(db, c);
        match step
        case GiveBack(call) =>
          if call in db.open {
            ReservationCovered(db, call);
            ReleaseEffect(db, db.open[call].account, call, db.open[call].reserved);
          }
        case Operator(o, kind, amount) =>
          if d != db {
            Appended(db.ledger, Entry(o, None, kind, amount, db.accounts[o].balance + amount));
          }
        case _ =>
      }
    }
  }

  lemma {:induction false} SetupConservesCosts(db: Db, s: SetupRequest, amount: nat)
    requires Inv(db) && CostsConserved(db) && s.call !in db.cdrs
    ensures CostsConserved(ReserveCallTx(db, s, amount))
  {
    var d := ReserveCallTx(db, s, amount);
    forall c | IsSettled(d, c)
      ensures TallyOf(d.ledger, c).cost == d.cdrs[c].cost
    {
      assert CallBalanced(db, c);
      ReserveExtends(db, s, amount);
      if ReserveSucceeds(db, s, amount) {
        ReserveEffect(db, s, amount);
      }
    }
  }

  /** Over any run in which every billed call's carriers have accounts, cost entries and CDR costs agree. */
  lemma {:induction false} CostsConservedAlways(db: Db, steps: seq<Step>, reserveMinutes: int)
    requires Inv(db) && CostsConserved(db) && CoveredRun(db, steps, reserveMinutes)
    ensures CostsConserved(Exec(db, steps, reserveMinutes))
    decreases |steps|
  {
    if steps != [] {
      StepKeepsInv(db, steps[0], reserveMinutes);
      if steps[0].Bill? {
        if BillOutcome(db, steps[0].h) == Billed {
          ChargeConservesCosts(db, steps[0].h.call, Assess(db, steps[0].h, steps[0].env));
        }
      } else {
        OthersConserveCosts(db, steps[0], reserveMinutes);
      }
      CostsConservedAlways(Apply(db, steps[0], reserveMinutes), steps[1..], reserveMinutes);
    }
  }

  predicate CoveredRun(db: Db, steps: seq<Step>, reserveMinutes: int)
    decreases |steps|
  {
    steps == [] ||
    (Fresh(db, steps[0]) && CostsCovered(db, steps[0]) &&
     CoveredRun(Apply(db, steps[0], reserveMinutes), steps[1..], reserveMinutes))
  }
}
