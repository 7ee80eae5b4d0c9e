/** What attempts that did not answer add to the cost of a call. */
module FailedAttempts {
  import opened Rating
  import opened Currency
  import opened Ledger
  import opened Books
  import opened Audit

  /** An attempt that costs something: not answered, on a carrier that charges for it, at a known buy rate
      whose connect fee is positive in the carrier's money. */
  predicate CostsAFee(rates: map<RateId, Rate>, env: Costing, a: Attempt) {
    && !a.answered && a.carrier in env.chargesFailed
    && a.buyRate.Some? && a.buyRate.value in rates
    && Convert(rates[a.buyRate.value].connectFee, env.Fx(a.buyRate.value, a.carrier)) > 0
  }

  lemma FeeIff(rates: map<RateId, Rate>, env: Costing, a: Attempt)
    ensures CostsAFee(rates, env, a) <==> var f := AttemptFee(rates, env, a); f.Some? && f.value.amount > 0
  {
  }

  /** The fees of a call are nothing exactly when none of its attempts costs one. */
  lemma {:induction false} NoFeesIff(rates: map<RateId, Rate>, env: Costing, attempts: seq<Attempt>)
    ensures FeeTotal(AttemptFees(rates, env, attempts)) == 0
       <==> forall i | 0 <= i < |attempts| :: !CostsAFee(rates, env, attempts[i])
  {
    if attempts != [] {
      var init, a := attempts[..|attempts| - 1], attempts[|attempts| - 1];
      NoFeesIff(rates, env, init);
      FeeIff(rates, env, a);
      var fees := AttemptFees(rates, env, init);
      var f := AttemptFee(rates, env, a);
      if f.Some? {
        assert (fees + [f.value])[..|fees|] == fees;
      }
      assert attempts == init + [a];
    }
  }

  /** A billed call's cost is the answering carrier's cost and the fees of its failed attempts. */
  lemma {:induction false} CostOfCall(db: Db, h: Hangup, env: Costing)
    requires Inv(db) && h.call in db.open && BillOutcome(db, h) == Billed
    ensures var d, cost := BillTx(db, h, env), CarrierCost(db, h, env);
      && h.call in d.cdrs
      && d.cdrs[h.call].cost
             == (if cost.Some? then cost.value.amount else 0)
                    + FeeTotal(AttemptFees(db.rates, env, db.cdrs[h.call].attempts))
  {
    assert CallBalanced(db, h.call);
    ChargeExtends(db, h.call, Assess(db, h, env));
  }

  /** An unanswered call costs nothing exactly when none of its attempts costs a fee. */
  lemma {:induction false} UnansweredCallFreeIff(db: Db, h: Hangup, env: Costing)
    requires Inv(db) && h.call in db.open && BillOutcome(db, h) == Billed && !h.answered
    ensures var d := BillTx(db, h, env);
      && h.call in d.cdrs
      && (d.cdrs[h.call].cost == 0 <==>
            forall i | 0 <= i < |db.cdrs[h.call].attempts| :: !CostsAFee(db.rates, env, db.cdrs[h.call].attempts[i]))
  {
    CostOfCall(db, h, env);
    NoFeesIff(db.rates, env, db.cdrs[h.call].attempts);
  }

  /** One failed attempt with a connect fee, on a call nobody answered: the fee is the cost of the call. */
  lemma {:induction false} OneFailedAttempt(db: Db, h: Hangup, env: Costing, a: Attempt)
    requires Inv(db) && h.call in db.open && BillOutcome(db, h) == Billed && !h.answered
    requires db.cdrs[h.call].attempts == [a]
    requires CostsAFee(db.rates, env, a)
    ensures var d := BillTx(db, h, env);
      h.call in d.cdrs
        && d.cdrs[h.call].cost == Convert(db.rates[a.buyRate.value].connectFee, env.Fx(a.buyRate.value, a.carrier))
  {
    CostOfCall(db, h, env);
    FeeIff(db.rates, env, a);
    var f := AttemptFee(db.rates, env, a).value;
    assert [a][..0] == [] && [f][..0] == [];
    assert AttemptFees(db.rates, env, [a]) == [f];
  }
}
