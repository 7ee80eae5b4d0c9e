/** Concrete runs from an empty database for what the documentation does not say. */
module Examples {
  import opened Basics
  import opened Decimal
  import opened Rating
  import opened Currency
  import opened Ledger
  import opened Books
  import opened Settlement
  import opened Prepaid
  import opened Overlap
  import opened FailedAttempts

  // ---- a failed attempt that costs ----

  const BUY := Rate(0, 7, Increments(1, 1, 0))

  /** The carrier charges for failed attempts, in the currency of its rate. */
  function Charging(): Costing {
    Costing({9}, map[])
  }

  /** A call is set up, its one attempt fails, and it is billed unanswered. */
  function FailedRun(): seq<Step> {
    FailedHead() + FailedTail(First())
  }

  function FailedHead(): seq<Step> {
    TwoSetups()[..3] + [SetRate(4, BUY)]
  }

  function FailedTail(s: SetupRequest): seq<Step> {
    [Setup(s), AddAttempt(s.call, Attempt(9, false, Some(4))), Bill(Hangup(s.call, false, 0, None), Charging())]
  }

  lemma {:induction false} AttemptAdded(db: Db, s: SetupRequest, amount: nat, a: Attempt)
    requires Inv(db) && s.call !in db.cdrs && ReserveSucceeds(db, s, amount)
    ensures var d := AttemptTx(ReserveCallTx(db, s, amount), s.call, a);
      && Inv(d) && s.call in d.open && d.rates == db.rates
      && s.call in d.cdrs && d.cdrs[s.call].attempts == [a]
      && BillOutcome(d, Hangup(s.call, false, 0, None)) == Billed
  {
    var mid := ReserveCallTx(db, s, amount);
    ReserveKeepsInvIffFresh(db, s, amount);
    ReserveEffect(db, s, amount);
    QuietStepKeepsInv(mid, AddAttempt(s.call, a), 0);
    assert [] + [a] == [a];
  }

  lemma FailedSteps(db: Db, s: SetupRequest, amount: nat, a: Attempt, h: Hangup, env: Costing, reserveMinutes: int)
    requires SetupAmount(s, reserveMinutes) == amount
    ensures Exec(db, [Setup(s), AddAttempt(s.call, a), Bill(h, env)], reserveMinutes)
         == BillTx(AttemptTx(ReserveCallTx(db, s, amount), s.call, a), h, env)
  {
    var steps := [Setup(s), AddAttempt(s.call, a), Bill(h, env)];
    var mid := AttemptTx(ReserveCallTx(db, s, amount), s.call, a);
    assert steps[1..] == [AddAttempt(s.call, a), Bill(h, env)] && steps[1..][1..] == [Bill(h, env)]
      && [Bill(h, env)][1..] == [];
    assert Exec(mid, [Bill(h, env)], reserveMinutes) == BillTx(mid, h, env);
  }

  lemma {:induction false} FailedStart()
    ensures var d := Exec(EMPTY, FailedHead(), 5);
      Inv(d) && d == Start(BY_SECOND).(rates := map[3 := BY_SECOND, 4 := BUY])
  {
    StartOfExample();
    StartInv(BY_SECOND);
    ExecSplit(EMPTY, TwoSetups()[..3], [SetRate(4, BUY)], 5);
    QuietStepKeepsInv(Start(BY_SECOND), SetRate(4, BUY), 5);
  }

  /** A call nobody answered costs the carrier's connect fee of 7. */
  lemma {:induction false} FailedAttemptCosts()
    ensures var d := Exec(EMPTY, FailedRun(), 5); 1 in d.cdrs && d.cdrs[1].cost == 7
  {
    FailedStart();
    FirstAmount();
    ExecSplit(EMPTY, FailedHead(), FailedTail(First()), 5);
    FailedCallCosts(Exec(EMPTY, FailedHead(), 5), First(), 300, 5);
  }

  lemma FirstAmount()
    ensures SetupAmount(First(), 5) == 300
  {
    TwoLimits();
  }

  lemma {:induction false} FailedCallCosts(db: Db, s: SetupRequest, amount: nat, reserveMinutes: int)
    requires Inv(db) && s.call !in db.cdrs && ReserveSucceeds(db, s, amount) && SetupAmount(s, reserveMinutes) == amount
    requires 4 in db.rates && db.rates[4] == BUY
    ensures var d := Exec(db, FailedTail(s), reserveMinutes);
      s.call in d.cdrs && d.cdrs[s.call].cost == 7
  {
    var a, h := Attempt(9, false, Some(4)), Hangup(s.call, false, 0, None);
    AttemptAdded(db, s, amount, a);
    FailedSteps(db, s, amount, a, h, Charging(), reserveMinutes);
    assert Convert(7, FX_ONE) == 7;
    OneFailedAttempt(AttemptTx(ReserveCallTx(db, s, amount), s.call, a), h, Charging(), a);
  }

  // ---- an exchange rate that vanished ----

  /** A stored pair of three hundred million to one, used from the other side. */
  function Vanished(): SetupRequest {
    SetupRequest(1, 1, 3, BY_SECOND, InverseFx(300_000_000 * FX_ONE), 600)
  }

  /** The setup reserves nothing, and a minute is billed at 60. */
  lemma {:induction false} VanishedFxCosts()
    ensures var d := SetupTx(Start(BY_SECOND), Vanished(), 5);
      && Vanished().fx == 0 && SetupAmount(Vanished(), 5) == 0
      && 1 in d.open && d.open[1].reserved == 0
      && BillOutcome(d, Hangup(1, true, 60, None)) == Billed
      && SellPrice(d, Hangup(1, true, 60, None)) == Some(60)
  {
    InverseFxVanishes(300_000_000 * FX_ONE);
    StartInv(BY_SECOND);
    VanishedFx(Start(BY_SECOND), Vanished(), Hangup(1, true, 60, None), 5);
    MinuteAtOneASecond();
  }

  lemma MinuteAtOneASecond()
    ensures Price(60, BY_SECOND) == 60
  {
  }
}
