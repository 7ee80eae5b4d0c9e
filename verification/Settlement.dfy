/** Every step keeps the books, and each call is settled exactly once. */
module Settlement {
  import opened Basics
  import opened Decimal
  import opened Rating
  import opened Ledger
  import opened Books

  // ---- setups ----

  lemma {:induction false} ReserveEffect(db: Db, s: SetupRequest, amount: nat)
    requires ReserveSucceeds(db, s, amount)
    ensures var o, d := Customer(s.customer), ReserveCallTx(db, s, amount);
      && d == InsertCall(db, s, amount).(accounts := d.accounts, ledger := d.ledger)
      && d.accounts == db.accounts[o := db.accounts[o].(reserved := db.accounts[o].reserved + amount)]
      && (forall p :: FiguresOf(d.ledger, p) ==
            var f := FiguresOf(db.ledger, p);
            if p == o then f.(reserved := f.reserved + amount) else f)
      && (forall c: CallId :: TallyOf(d.ledger, c) ==
            var t := TallyOf(db.ledger, c);
            if c == s.call then t.(reserves := t.reserves + 1, reserved := t.reserved + amount) else t)
  {
    var o := Customer(s.customer);
    Appended(db.ledger, Entry(o, Some(s.call), Reserve, 0 - amount, db.accounts[o].balance));
  }

  /** The reconcile report stays clean after a reservation exactly when the call had no open
      reservation yet, or the reservation is zero. */
  lemma {:induction false} ReserveReconcilesIff(db: Db, s: SetupRequest, amount: nat)
    requires Inv(db) && ReserveSucceeds(db, s, amount)
    ensures Reconciles(ReserveCallTx(db, s, amount)) <==> s.call !in db.open || amount == 0
  {
    if s.call !in db.open || amount == 0 {
      forall p
        ensures Reconcile(ReserveCallTx(db, s, amount), p).OK()
      {
        ReserveReconcilesOne(db, s, amount, p);
      }
    } else {
      ReserveReconcilesOne(db, s, amount, Customer(s.customer));
    }
  }

  /** The same for one account: its row stays clean, or breaks when it is the account of the second reservation. */
  lemma {:induction false} ReserveReconcilesOne(db: Db, s: SetupRequest, amount: nat, p: Owner)
    requires Reconcile(db, p).OK() && ReserveSucceeds(db, s, amount)
    ensures s.call !in db.open || amount == 0 ==> Reconcile(ReserveCallTx(db, s, amount), p).OK()
    ensures s.call in db.open && amount > 0 && p == Customer(s.customer) ==>
      !Reconcile(ReserveCallTx(db, s, amount), p).OK()
  {
    var d := ReserveCallTx(db, s, amount);
    ReserveEffect(db, s, amount);
    ReserveOpenSum(db.open, s.call, OpenCall(Customer(s.customer), amount), p, d.open);
    var more := if p == Customer(s.customer) then amount else 0;
    assert FiguresOf(d.ledger, p).reserved == FiguresOf(db.ledger, p).reserved + more;
  }

  /** A reservation for an open call leaves its row alone. */
  lemma {:induction false} ReserveOpenSum(open: map<CallId, OpenCall>, call: CallId, row: OpenCall, p: Owner,
                                          after: map<CallId, OpenCall>)
    requires after == if call in open then open else open[call := row]
    ensures OpenSum(after, p) == OpenSum(open, p) + if call !in open && row.account == p then row.reserved else 0
  {
    if call !in open {
      OpenSumAdd(open, call, row, p);
    }
  }

  /** A reservation keeps all the books exactly when its call id is fresh. */
  lemma {:induction false} ReserveKeepsInvIffFresh(db: Db, s: SetupRequest, amount: nat)
    requires Inv(db) && ReserveSucceeds(db, s, amount)
    ensures Inv(ReserveCallTx(db, s, amount)) <==> s.call !in db.cdrs
  {
    if s.call !in db.cdrs {
      FreshKeepsInv(db, s, amount);
    } else {
      var d := ReserveCallTx(db, s, amount);
      ReserveEffect(db, s, amount);
      assert CallBalanced(db, s.call);
      if s.call in db.open {
        assert TallyOf(d.ledger, s.call).reserves == 2;
        assert !CallBalanced(d, s.call);
      } else {
        assert !Linked(d);
      }
    }
  }

  lemma {:induction false} FreshKeepsInv(db: Db, s: SetupRequest, amount: nat)
    requires Inv(db) && ReserveSucceeds(db, s, amount) && s.call !in db.cdrs
    ensures Inv(ReserveCallTx(db, s, amount))
  {
    var d := ReserveCallTx(db, s, amount);
    ReserveReconcilesIff(db, s, amount);
    ReserveEffect(db, s, amount);
    forall c
      ensures CallBalanced(d, c)
    {
      assert CallBalanced(db, c);
    }
  }

  /** One call id reserved twice: the account's reserved money no longer matches its open calls. */
  lemma {:induction false} ReusedCallIdWitness(rate: Rate)
    ensures var o, s := Customer(1), SetupRequest(7, 1, 3, rate, FX_ONE, 1000);
            var db := Db(map[o := Account(1000, 0, 0)], [Entry(o, None, Topup, 1000, 1000)], map[], map[],
                map[3 := rate]);
            var twice := ReserveCallTx(ReserveCallTx(db, s, 60), s, 60);
            && Inv(db)
            && Inv(ReserveCallTx(db, s, 60))
            && o in twice.accounts
            && twice.accounts[o].reserved == 120
            && OpenSum(twice.open, o) == 60
  {
    var o, s := Customer(1), SetupRequest(7, 1, 3, rate, FX_ONE, 1000);
    var e := Entry(o, None, Topup, 1000, 1000);
    var db := Db(map[o := Account(1000, 0, 0)], [e], map[], map[], map[3 := rate]);
    OneTopup(db, e);
    ReserveTwice(db, s, 60);
  }

  lemma {:induction false} OneTopup(db: Db, e: Entry)
    requires e.kind.Topup? && e.call.None? && db.accounts == map[e.account := Account(e.amount, 0, 0)]
    requires db.ledger == [e] && db.open == map[] && db.cdrs == map[]
    ensures Inv(db)
  {
    Appended([], e);
    assert [] + [e] == [e];
  }

  /** A call without a row is reserved twice over: both amounts are reserved, one is open. */
  lemma {:induction false} ReserveTwice(db: Db, s: SetupRequest, amount: nat)
    requires Inv(db) && ReserveSucceeds(db, s, amount) && s.call !in db.cdrs
    requires amount > 0 && db.accounts[Customer(s.customer)].Available() >= 2 * amount
    ensures var o, once := Customer(s.customer), ReserveCallTx(db, s, amount);
            var twice := ReserveCallTx(once, s, amount);
            && Inv(once)
            && o in twice.accounts
            && twice.accounts[o].reserved == db.accounts[o].reserved + 2 * amount
            && OpenSum(twice.open, o) == OpenSum(db.open, o) + amount
  {
    var once := ReserveCallTx(db, s, amount);
    ReserveEffect(db, s, amount);
    ReserveKeepsInvIffFresh(db, s, amount);
    OpenSumAdd(db.open, s.call, OpenCall(Customer(s.customer), amount), Customer(s.customer));
    ReserveEffect(once, s, amount);
  }

  // ---- the other steps ----

  lemma {:induction false} BillKeepsInv(db: Db, h: Hangup, env: Costing)
    requires Inv(db)
    ensures Inv(BillTx(db, h, env))
  {
    if BillOutcome(db, h) == Billed {
      ChargeKeepsInv(db, h.call, Assess(db, h, env));
    }
  }

  lemma {:induction false} OperatorKeepsInv(db: Db, o: Owner, kind: Kind, amount: int)
    requires Inv(db)
    ensures Inv(OperatorPostTx(db, o, kind, amount))
  {
    var d := OperatorPostTx(db, o, kind, amount);
    if d != db {
      Appended(db.ledger, Entry(o, None, kind, amount, db.accounts[o].balance + amount));
      forall p
        ensures Reconcile(d, p).OK()
      {
        assert Reconcile(db, p).OK();
      }
      forall c
        ensures CallBalanced(d, c)
      {
        assert CallBalanced(db, c);
      }
    }
  }

  /** Steps that move no money. */
  lemma {:induction false} QuietStepKeepsInv(db: Db, step: Step, reserveMinutes: int)
    requires Inv(db)
    requires step.Reject? || step.AddAttempt? || step.SetCredit? || step.OpenAccount? || step.SetRate? ||
      step.DropRates?
    ensures Inv(Apply(db, step, reserveMinutes))
  {
    if step.Reject? || step.AddAttempt? {
      CdrStepKeepsInv(db, step, reserveMinutes);
    } else if step.SetRate? || step.DropRates? {
      RatesOutsideInv(db, Apply(db, step, reserveMinutes));
    } else {
      AccountStepKeepsInv(db, step, reserveMinutes);
    }
  }

  /** The books say nothing about rate rows. */
  lemma {:induction false} RatesOutsideInv(db: Db, d: Db)
    requires Inv(db) && d == db.(rates := d.rates)
    ensures Inv(d)
  {
    forall p
      ensures Reconcile(d, p).OK()
    {
      assert Reconcile(db, p).OK();
    }
    forall c
      ensures CallBalanced(d, c)
    {
      assert CallBalanced(db, c);
    }
  }

  lemma {:induction false} CdrStepKeepsInv(db: Db, step: Step, reserveMinutes: int)
    requires Inv(db) && (step.Reject? || step.AddAttempt?)
    ensures Inv(Apply(db, step, reserveMinutes))
  {
    var d := Apply(db, step, reserveMinutes);
    forall p
      ensures Reconcile(d, p).OK()
    {
      assert Reconcile(db, p).OK();
    }
    forall c
      ensures CallBalanced(d, c)
    {
      assert CallBalanced(db, c);
    }
  }

  lemma {:induction false} AccountStepKeepsInv(db: Db, step: Step, reserveMinutes: int)
    requires Inv(db) && (step.SetCredit? || step.OpenAccount?)
    ensures Inv(Apply(db, step, reserveMinutes))
  {
    var d := Apply(db, step, reserveMinutes);
    forall p
      ensures Reconcile(d, p).OK()
    {
      assert Reconcile(db, p).OK();
    }
    forall c
      ensures CallBalanced(d, c)
    {
      assert CallBalanced(db, c);
    }
  }

  /** Setups use a call id no CDR has. */
  predicate Fresh(db: Db, step: Step) {
    step.Setup? ==> step.s.call !in db.cdrs
  }

  lemma {:induction false} StepKeepsInv(db: Db, step: Step, reserveMinutes: int)
    requires Inv(db) && Fresh(db, step)
    ensures Inv(Apply(db, step, reserveMinutes))
  {
    match step
    case Setup(s) => SetupKeepsInv(db, s, SetupAmount(s, reserveMinutes));
    case Bill(h, env) => BillKeepsInv(db, h, env);
    case GiveBack(call) => GiveBackKeepsInv(db, call);
    case Operator(o, kind, amount) => OperatorKeepsInv(db, o, kind, amount);
    case _ => QuietStepKeepsInv(db, step, reserveMinutes);
  }

  lemma {:induction false} SetupKeepsInv(db: Db, s: SetupRequest, amount: nat)
    requires Inv(db) && s.call !in db.cdrs
    ensures Inv(ReserveCallTx(db, s, amount))
  {
    if ReserveSucceeds(db, s, amount) {
      ReserveKeepsInvIffFresh(db, s, amount);
    }
  }

  /** Every setup of the run is fresh when it happens. */
  predicate FreshRun(db: Db, steps: seq<Step>, reserveMinutes: int)
    decreases |steps|
  {
    steps == [] || (Fresh(db, steps[0]) && FreshRun(Apply(db, steps[0], reserveMinutes), steps[1..], reserveMinutes))
  }

  /** The books are balanced in every state a run of fresh setups and any other steps can reach. */
  lemma {:induction false} ReachableInv(db: Db, steps: seq<Step>, reserveMinutes: int)
    requires Inv(db) && FreshRun(db, steps, reserveMinutes)
    ensures Inv(Exec(db, steps, reserveMinutes))
    decreases |steps|
  {
    if steps != [] {
      StepKeepsInv(db, steps[0], reserveMinutes);
      ReachableInv(Apply(db, steps[0], reserveMinutes), steps[1..], reserveMinutes);
    }
  }

  /** From an empty database the reconcile report is clean for every account at all times. */
  lemma {:induction false} ReconcileAlwaysOK(steps: seq<Step>, reserveMinutes: int, o: Owner)
    requires FreshRun(EMPTY, steps, reserveMinutes)
    ensures Reconcile(Exec(EMPTY, steps, reserveMinutes), o).OK()
  {
    EmptyInv();
    ReachableInv(EMPTY, steps, reserveMinutes);
  }
}
