/** Calls of one account that overlap: how far below zero their limits let it go. */
module Overlap {
  import opened Basics
  import opened Decimal
  import opened Rating
  import opened Currency
  import opened Ledger
  import opened Books
  import opened Settlement
  import opened Prepaid

  /** The call limit the setup computes from the money it saw. */
  function Limit(s: SetupRequest, capSeconds: int): (n: nat) {
    MaxCallSeconds(s.seen, ConvertRate(s.row, s.fx), capSeconds)
  }

  // ---- what an open call can cost ----

  predicate IsOpenCall(db: Db, o: Owner, c: CallId) {
    && c in db.open && db.open[c].account == o
    && c in db.cdrs && db.cdrs[c].sellRate.Some? && db.cdrs[c].sellRate.value in db.rates
  }

  /** What billing will ask for c after so many seconds. */
  function PriceAfter(db: Db, o: Owner, c: CallId, seconds: int): (p: nat)
    requires IsOpenCall(db, o, c)
  {
    var rate := ToRatingFx(db.rates[db.cdrs[c].sellRate.value], db.cdrs[c].sellFx);
    PriceMonotone(Max(seconds, 0), Max(seconds, 0), rate);
    Price(Max(seconds, 0), rate)
  }

  lemma PriceGrows(db: Db, o: Owner, c: CallId, a: int, b: int)
    requires IsOpenCall(db, o, c) && a <= b
    ensures PriceAfter(db, o, c, a) <= PriceAfter(db, o, c, b)
  {
    PriceMonotone(Max(a, 0), Max(b, 0), ToRatingFx(db.rates[db.cdrs[c].sellRate.value], db.cdrs[c].sellFx));
  }

  /** An open call with the longest it may talk (its limit, and the seconds its hangup may come late), what it
      reserved, and what it costs when it talks that long. */
  datatype Running = Running(call: CallId, limit: int, reserved: nat, cost: nat) {
    function Excess(): nat {
      Max(cost - reserved, 0)
    }
  }

  ghost predicate Describes(db: Db, o: Owner, r: Running) {
    IsOpenCall(db, o, r.call) && r.reserved == db.open[r.call].reserved && r.cost == PriceAfter(db, o, r.call, r.limit)
  }

  /** calls lists open calls of the account, each once. */
  ghost predicate AllOpen(db: Db, o: Owner, calls: seq<Running>) {
    && (forall i | 0 <= i < |calls| :: Describes(db, o, calls[i]))
    && (forall i, j | 0 <= i < j < |calls| :: calls[i].call != calls[j].call)
  }

  function ExcessSum(calls: seq<Running>): nat {
    if calls == [] then 0 else calls[0].Excess() + ExcessSum(calls[1..])
  }

  function LimitPrices(calls: seq<Running>): nat {
    if calls == [] then 0 else calls[0].cost + LimitPrices(calls[1..])
  }

  function ReservedSum(calls: seq<Running>): nat {
    if calls == [] then 0 else calls[0].reserved + ReservedSum(calls[1..])
  }

  // ---- hangups ----

  function Bills(hs: seq<Hangup>, env: Costing): seq<Step> {
    if hs == [] then [] else [Bill(hs[0], env)] + Bills(hs[1..], env)
  }

  function Due(db: Db, o: Owner, h: Hangup): nat
    requires IsOpenCall(db, o, h.call)
  {
    if h.answered then PriceAfter(db, o, h.call, h.billsec) else 0
  }

  /** d is db after call c of account o was closed: the account moved, the other calls did not. */
  ghost predicate Closed(db: Db, d: Db, o: Owner, c: CallId) {
    && d.rates == db.rates && d.open == db.open - {c}
    && (forall x | x in db.cdrs && x != c :: x in d.cdrs && d.cdrs[x] == db.cdrs[x])
  }

  /** Billing one hangup moves the account by reservation minus price. */
  lemma {:induction false} OneBill(db: Db, o: Owner, h: Hangup, env: Costing)
    requires Inv(db) && IsOpenCall(db, o, h.call)
    ensures var d := BillTx(db, h, env);
      && Inv(d) && Closed(db, d, o, h.call) && o in d.accounts
      && d.accounts[o].Available() == db.accounts[o].Available() + db.open[h.call].reserved - Due(db, o, h)
      && d.accounts[o].Funds() == db.accounts[o].Funds() - Due(db, o, h)
  {
    assert BillOutcome(db, h) == Billed;
    var ch := Assess(db, h, env);
    BillMovesAvailable(db, h.call, ch);
    ChargeKeepsInv(db, h.call, ch);
    assert ch.PriceDue() == Due(db, o, h);
  }

  /** A closed call leaves the others as they were. */
  lemma OthersStay(db: Db, d: Db, o: Owner, c: CallId, calls: seq<Running>)
    requires AllOpen(db, o, calls) && Closed(db, d, o, c) && forall i | 0 <= i < |calls| :: calls[i].call != c
    ensures AllOpen(d, o, calls)
  {
    forall i | 0 <= i < |calls|
      ensures Describes(d, o, calls[i])
    {
      assert Describes(db, o, calls[i]);
    }
  }

  /** The account lost no more than r can cost: its price out of balance and credit, and out of the available
      money what exceeds the reservation. */
  ghost predicate Pays(was: Account, now: Account, r: Running) {
    && now.Available() >= was.Available() + r.reserved - r.cost
    && now.Available() >= was.Available() - r.Excess()
    && now.Funds() >= was.Funds() - r.cost
  }

  /** And exactly that. */
  ghost predicate PaysInFull(was: Account, now: Account, r: Running) {
    now.Available() == was.Available() + r.reserved - r.cost && now.Funds() == was.Funds() - r.cost
  }

  /** Within its limit a call costs its account no more than at the limit, and exactly that at the limit. */
  lemma {:induction false} OneCallEnds(db: Db, o: Owner, r: Running, h: Hangup, env: Costing)
    requires Inv(db) && Describes(db, o, r) && h.call == r.call && h.billsec <= r.limit && o in db.accounts
    ensures var d := BillTx(db, h, env);
      && Inv(d) && Closed(db, d, o, h.call) && o in d.accounts
      && Pays(db.accounts[o], d.accounts[o], r)
      && (h.answered && h.billsec == r.limit ==> PaysInFull(db.accounts[o], d.accounts[o], r))
  {
    OneBill(db, o, h, env);
    PriceGrows(db, o, h.call, h.billsec, r.limit);
  }

  function Without(calls: seq<Running>, i: nat): seq<Running>
    requires i < |calls|
  {
    calls[..i] + calls[i + 1..]
  }

  lemma {:induction false} SumsWithout(calls: seq<Running>, i: nat)
    requires i < |calls|
    ensures ExcessSum(calls) == calls[i].Excess() + ExcessSum(Without(calls, i))
    ensures LimitPrices(calls) == calls[i].cost + LimitPrices(Without(calls, i))
  {
    if i == 0 {
      assert Without(calls, i) == calls[1..];
    } else {
      SumsWithout(calls[1..], i - 1);
      assert Without(calls, i)[1..] == Without(calls[1..], i - 1);
    }
  }

  lemma OpenWithout(db: Db, o: Owner, calls: seq<Running>, i: nat)
    requires AllOpen(db, o, calls) && i < |calls|
    ensures var rest := Without(calls, i);
      AllOpen(db, o, rest) && forall k | 0 <= k < |rest| :: rest[k].call != calls[i].call
  {
    var rest := Without(calls, i);
    assert forall k | 0 <= k < |rest| :: rest[k] == calls[if k < i then k else k + 1];
  }

  /** The first of several hangups: its call is gone, the others are as they were, and the account moved by
      reservation minus price. */
  lemma {:induction false} FirstEnds(db: Db, o: Owner, calls: seq<Running>, i: nat, hs: seq<Hangup>, env: Costing,
                                     reserveMinutes: int)
    returns (d: Db)
    requires Inv(db) && o in db.accounts && AllOpen(db, o, calls) && i < |calls|
    requires |hs| > 0 && hs[0].call == calls[i].call && hs[0].billsec <= calls[i].limit
    ensures Exec(db, Bills(hs, env), reserveMinutes) == Exec(d, Bills(hs[1..], env), reserveMinutes)
    ensures Inv(d) && o in d.accounts && AllOpen(d, o, Without(calls, i))
    ensures Pays(db.accounts[o], d.accounts[o], calls[i])
    ensures hs[0].answered && hs[0].billsec == calls[i].limit ==> PaysInFull(db.accounts[o], d.accounts[o], calls[i])
  {
    d := BillTx(db, hs[0], env);
    OneCallEnds(db, o, calls[i], hs[0], env);
    OpenWithout(db, o, calls, i);
    OthersStay(db, d, o, hs[0].call, Without(calls, i));
    assert Bills(hs, env)[1..] == Bills(hs[1..], env);
  }

  // ---- all of them hang up ----

  /** hs ends the calls in turn, each within its limit. */
  ghost predicate EndsAll(calls: seq<Running>, hs: seq<Hangup>) {
    && |hs| == |calls|
    && forall i | 0 <= i < |hs| :: hs[i].call == calls[i].call && hs[i].billsec <= calls[i].limit
  }

  ghost predicate TalkedToLimits(calls: seq<Running>, hs: seq<Hangup>) {
    |hs| == |calls| && forall i | 0 <= i < |hs| :: hs[i].answered && hs[i].billsec == calls[i].limit
  }

  lemma {:induction false} AllWithinLimits(db: Db, o: Owner, calls: seq<Running>, hs: seq<Hangup>, env: Costing,
                                           reserveMinutes: int)
    requires Inv(db) && o in db.accounts && AllOpen(db, o, calls) && EndsAll(calls, hs)
    ensures var d := Exec(db, Bills(hs, env), reserveMinutes);
      && o in d.accounts
      && d.accounts[o].Available() >= db.accounts[o].Available() + ReservedSum(calls) - LimitPrices(calls)
      && (TalkedToLimits(calls, hs) ==>
            && d.accounts[o].Available() == db.accounts[o].Available() + ReservedSum(calls) - LimitPrices(calls)
            && d.accounts[o].Funds() == db.accounts[o].Funds() - LimitPrices(calls))
    decreases |calls|
  {
    if calls != [] {
      var d := FirstEnds(db, o, calls, 0, hs, env, reserveMinutes);
      assert Without(calls, 0) == calls[1..];
      RestEnds(calls, hs);
      AllWithinLimits(d, o, calls[1..], hs[1..], env, reserveMinutes);
    }
  }

  lemma RestEnds(calls: seq<Running>, hs: seq<Hangup>)
    requires EndsAll(calls, hs) && calls != []
    ensures EndsAll(calls[1..], hs[1..]) && (TalkedToLimits(calls, hs) ==> TalkedToLimits(calls[1..], hs[1..]))
  {
  }

  function AtLimits(calls: seq<Running>): (hs: seq<Hangup>)
    ensures |hs| == |calls|
    ensures forall i | 0 <= i < |hs| :: hs[i] == Hangup(calls[i].call, true, calls[i].limit, None)
  {
    seq(|calls|, i requires 0 <= i < |calls| => Hangup(calls[i].call, true, calls[i].limit, None))
  }

  /** After these hangups the account's available money is at or above floor. */
  ghost predicate KeepsAvailable(db: Db, o: Owner, hs: seq<Hangup>, floor: int, env: Costing, reserveMinutes: int) {
    var d := Exec(db, Bills(hs, env), reserveMinutes);
    o in d.accounts && d.accounts[o].Available() >= floor
  }

  /** And its balance and credit. */
  ghost predicate KeepsFunds(db: Db, o: Owner, hs: seq<Hangup>, floor: int, env: Costing, reserveMinutes: int) {
    var d := Exec(db, Bills(hs, env), reserveMinutes);
    o in d.accounts && d.accounts[o].Funds() >= floor
  }

  /** Any number of open calls of an account, once all of them have ended: no talk times within the limits
      leave its available money below a floor exactly when the prices at the limits are within the money above
      it and the reservations. */
  lemma {:induction false} AllEndedOverdrawIff(db: Db, o: Owner, calls: seq<Running>, floor: int, env: Costing,
                                               reserveMinutes: int)
    requires Inv(db) && o in db.accounts && AllOpen(db, o, calls)
    ensures (forall hs | EndsAll(calls, hs) :: KeepsAvailable(db, o, hs, floor, env, reserveMinutes))
       <==> LimitPrices(calls) <= db.accounts[o].Available() - floor + ReservedSum(calls)
  {
    if LimitPrices(calls) <= db.accounts[o].Available() - floor + ReservedSum(calls) {
      forall hs | EndsAll(calls, hs)
        ensures KeepsAvailable(db, o, hs, floor, env, reserveMinutes)
      {
        AllWithinLimits(db, o, calls, hs, env, reserveMinutes);
      }
    } else {
      var hs := AtLimits(calls);
      TogetherAtLimits(db, o, calls, hs, env, reserveMinutes);
      assert EndsAll(calls, hs) && !KeepsAvailable(db, o, hs, floor, env, reserveMinutes);
    }
  }

  // ---- some of them, in any order ----

  ghost predicate Within(calls: seq<Running>, h: Hangup) {
    exists i :: 0 <= i < |calls| && calls[i].call == h.call && h.billsec <= calls[i].limit
  }

  /** hs ends some of the calls, in any order, each once and within its limit. */
  ghost predicate EndsSome(calls: seq<Running>, hs: seq<Hangup>) {
    && (forall i | 0 <= i < |hs| :: Within(calls, hs[i]))
    && (forall i, j | 0 <= i < j < |hs| :: hs[i].call != hs[j].call)
  }

  lemma EndsRest(calls: seq<Running>, hs: seq<Hangup>, i: nat)
    requires EndsSome(calls, hs) && |hs| > 0 && i < |calls| && calls[i].call == hs[0].call
    ensures EndsSome(Without(calls, i), hs[1..])
  {
    forall k | 0 <= k < |hs[1..]|
      ensures Within(Without(calls, i), hs[1..][k])
    {
      assert Within(calls, hs[k + 1]) && hs[k + 1].call != hs[0].call;
      var j :| 0 <= j < |calls| && calls[j].call == hs[k + 1].call && hs[k + 1].billsec <= calls[j].limit;
      assert Without(calls, i)[if j < i then j else j - 1] == calls[j];
    }
  }

  /** Whichever calls have ended so far, the account lost at most what the calls can cost. */
  lemma {:induction false} SomeWithinLimits(db: Db, o: Owner, calls: seq<Running>, hs: seq<Hangup>, env: Costing,
                                            reserveMinutes: int)
    requires Inv(db) && o in db.accounts && AllOpen(db, o, calls) && EndsSome(calls, hs)
    ensures var d := Exec(db, Bills(hs, env), reserveMinutes);
      && o in d.accounts
      && d.accounts[o].Available() >= db.accounts[o].Available() - ExcessSum(calls)
      && d.accounts[o].Funds() >= db.accounts[o].Funds() - LimitPrices(calls)
    decreases |hs|
  {
    if hs != [] {
      assert Within(calls, hs[0]);
      var i :| 0 <= i < |calls| && calls[i].call == hs[0].call && hs[0].billsec <= calls[i].limit;
      var d := FirstEnds(db, o, calls, i, hs, env, reserveMinutes);
      SumsWithout(calls, i);
      EndsRest(calls, hs, i);
      SomeWithinLimits(d, o, Without(calls, i), hs[1..], env, reserveMinutes);
    }
  }

  /** The calls that cost more than they reserved, each talking to its limit. */
  function Worst(calls: seq<Running>): seq<Hangup> {
    if calls == [] then []
    else
      (if calls[0].Excess() > 0 then [Hangup(calls[0].call, true, calls[0].limit, None)] else []) + Worst(calls[1..])
  }

  lemma {:induction false} WorstIsAllowed(calls: seq<Running>)
    requires forall i, j | 0 <= i < j < |calls| :: calls[i].call != calls[j].call
    ensures EndsSome(calls, Worst(calls))
  {
    if calls != [] {
      WorstIsAllowed(calls[1..]);
      var hs, tail := Worst(calls), Worst(calls[1..]);
      forall k | 0 <= k < |tail|
        ensures Within(calls, tail[k]) && tail[k].call != calls[0].call
      {
        var i :| 0 <= i < |calls[1..]| && calls[1..][i].call == tail[k].call && tail[k].billsec <= calls[1..][i].limit;
        assert calls[i + 1] == calls[1..][i];
      }
      assert Within(calls, Hangup(calls[0].call, true, calls[0].limit, None));
      assert hs == tail || hs == [Hangup(calls[0].call, true, calls[0].limit, None)] + tail;
    }
  }

  lemma {:induction false} WorstReached(db: Db, o: Owner, calls: seq<Running>, env: Costing, reserveMinutes: int)
    requires Inv(db) && o in db.accounts && AllOpen(db, o, calls)
    ensures var d := Exec(db, Bills(Worst(calls), env), reserveMinutes);
      o in d.accounts && d.accounts[o].Available() == db.accounts[o].Available() - ExcessSum(calls)
    decreases |calls|
  {
    if calls != [] {
      if calls[0].Excess() > 0 {
        assert Worst(calls)[1..] == Worst(calls[1..]);
        var d := FirstEnds(db, o, calls, 0, Worst(calls), env, reserveMinutes);
        assert Without(calls, 0) == calls[1..];
        WorstReached(d, o, calls[1..], env, reserveMinutes);
      } else {
        WorstReached(db, o, calls[1..], env, reserveMinutes);
        assert Worst(calls) == Worst(calls[1..]);
      }
    }
  }

  /** Any number of open calls of an account, ending in any order at any talk times within their limits: its
      available money falls below a floor at no moment exactly when what the calls can cost beyond their
      reservations is within the money above the floor. */
  lemma {:induction false} OverdrawIff(db: Db, o: Owner, calls: seq<Running>, floor: int, env: Costing,
                                       reserveMinutes: int)
    requires Inv(db) && o in db.accounts && AllOpen(db, o, calls)
    ensures (forall hs | EndsSome(calls, hs) :: KeepsAvailable(db, o, hs, floor, env, reserveMinutes))
       <==> ExcessSum(calls) <= db.accounts[o].Available() - floor
  {
    if ExcessSum(calls) <= db.accounts[o].Available() - floor {
      forall hs | EndsSome(calls, hs)
        ensures KeepsAvailable(db, o, hs, floor, env, reserveMinutes)
      {
        SomeWithinLimits(db, o, calls, hs, env, reserveMinutes);
      }
    } else {
      WorstIsAllowed(calls);
      WorstReached(db, o, calls, env, reserveMinutes);
      assert !KeepsAvailable(db, o, Worst(calls), floor, env, reserveMinutes);
    }
  }

  lemma AtLimitsIsAllowed(calls: seq<Running>)
    requires forall i, j | 0 <= i < j < |calls| :: calls[i].call != calls[j].call
    ensures EndsSome(calls, AtLimits(calls))
  {
    var hs := AtLimits(calls);
    forall i | 0 <= i < |hs|
      ensures Within(calls, hs[i])
    {
      assert calls[i].call == hs[i].call && hs[i].billsec <= calls[i].limit;
    }
  }

  /** The same for balance and credit, where reservations do not count: exactly when the prices at the limits
      are within the funds above the floor. */
  lemma {:induction false} FundsIff(db: Db, o: Owner, calls: seq<Running>, floor: int, env: Costing,
                                    reserveMinutes: int)
    requires Inv(db) && o in db.accounts && AllOpen(db, o, calls)
    ensures (forall hs | EndsSome(calls, hs) :: KeepsFunds(db, o, hs, floor, env, reserveMinutes))
       <==> LimitPrices(calls) <= db.accounts[o].Funds() - floor
  {
    if LimitPrices(calls) <= db.accounts[o].Funds() - floor {
      forall hs | EndsSome(calls, hs)
        ensures KeepsFunds(db, o, hs, floor, env, reserveMinutes)
      {
        SomeWithinLimits(db, o, calls, hs, env, reserveMinutes);
      }
    } else {
      var hs := AtLimits(calls);
      AtLimitsIsAllowed(calls);
      TogetherAtLimits(db, o, calls, hs, env, reserveMinutes);
      assert !KeepsFunds(db, o, hs, floor, env, reserveMinutes);
    }
  }

  // ---- at most one increment below zero ----

  /** One subsequent increment at the rate, in whole micro-units, with the half unit of rounding. */
  function OneIncrement(r: Rate): (n: int)
    ensures forall x, y :: WithinOneIncrement(x, y, r, 1) <==> x <= y + n
  {
    (r.perMinute * Subsequent(r.inc) + 30) / 60
  }

  /** The money is below zero by at most one increment at the rate. */
  predicate AtMostOneBelow(money: int, r: Rate) {
    WithinOneIncrement(0 - money, 0, r, 1)
  }

  ghost predicate FundsOneBelow(db: Db, o: Owner, hs: seq<Hangup>, r: Rate, env: Costing, reserveMinutes: int) {
    var d := Exec(db, Bills(hs, env), reserveMinutes);
    o in d.accounts && AtMostOneBelow(d.accounts[o].Funds(), r)
  }

  ghost predicate AvailableOneBelow(db: Db, o: Owner, hs: seq<Hangup>, r: Rate, env: Costing, reserveMinutes: int) {
    var d := Exec(db, Bills(hs, env), reserveMinutes);
    o in d.accounts && AtMostOneBelow(d.accounts[o].Available(), r)
  }

  /** However the open calls end within their limits, balance and credit together fall below zero by at most
      one increment exactly when the prices at the limits exceed them by at most one; and available money
      exactly when the prices exceed the reservations by at most one increment more than is available. */
  lemma {:induction false} OneIncrementDebtIff(db: Db, o: Owner, calls: seq<Running>, r: Rate, env: Costing,
                                               reserveMinutes: int)
    requires Inv(db) && o in db.accounts && AllOpen(db, o, calls)
    ensures (forall hs | EndsSome(calls, hs) :: FundsOneBelow(db, o, hs, r, env, reserveMinutes))
       <==> WithinOneIncrement(LimitPrices(calls), db.accounts[o].Funds(), r, 1)
    ensures (forall hs | EndsSome(calls, hs) :: AvailableOneBelow(db, o, hs, r, env, reserveMinutes))
       <==> WithinOneIncrement(ExcessSum(calls), db.accounts[o].Available(), r, 1)
  {
    var floor := 0 - OneIncrement(r);
    forall hs
      ensures FundsOneBelow(db, o, hs, r, env, reserveMinutes) <==> KeepsFunds(db, o, hs, floor, env, reserveMinutes)
      ensures AvailableOneBelow(db, o, hs, r, env, reserveMinutes)
         <==> KeepsAvailable(db, o, hs, floor, env, reserveMinutes)
    {
    }
    FundsIff(db, o, calls, floor, env, reserveMinutes);
    OverdrawIff(db, o, calls, floor, env, reserveMinutes);
  }

  // ---- one call alone, and two that overlap ----

  /** A call that was set up from all the money its account had, and ended by its limit or some seconds late,
      takes the account below zero by at most one subsequent increment. */
  lemma {:induction false} LoneCallOverrun(db: Db, s: SetupRequest, h: Hangup, env: Costing, reserveMinutes: int,
                                           capSeconds: int, late: nat)
    requires Inv(db) && s.call !in db.cdrs && ReserveSucceeds(db, s, SetupAmount(s, reserveMinutes))
    requires s.row == db.rates[s.rateId] && s.fx != 0 && s.seen == db.accounts[Customer(s.customer)].Available()
    requires AdmittedAndCut(reserveMinutes, s.seen, ConvertRate(s.row, s.fx), capSeconds, h.billsec, late)
    requires h.call == s.call && ReservesBlock(reserveMinutes, s.row.inc)
    ensures var d, o := Exec(db, [Setup(s), Bill(h, env)], reserveMinutes), Customer(s.customer);
      && o in d.accounts
      && WithinOneIncrement(0 - d.accounts[o].Available(), 0, ConvertRate(s.row, s.fx), late)
      && WithinOneIncrement(0 - d.accounts[o].Funds(), 0, ConvertRate(s.row, s.fx), late)
  {
    var o, a, rate := Customer(s.customer), SetupAmount(s, reserveMinutes), ConvertRate(s.row, s.fx);
    SetupThenBill(db, s, h, env, reserveMinutes);
    ReservedThenBilled(db, s, a, h, env);
    var due := DueAtSetupRate(db, s, a, h);
    DueWithinOneIncrement(reserveMinutes, s.seen, rate, capSeconds, h.billsec, late, due);
  }

  lemma SetupThenBill(db: Db, s: SetupRequest, h: Hangup, env: Costing, reserveMinutes: int)
    ensures Exec(db, [Setup(s), Bill(h, env)], reserveMinutes)
         == BillTx(ReserveCallTx(db, s, SetupAmount(s, reserveMinutes)), h, env)
  {
    var mid := ReserveCallTx(db, s, SetupAmount(s, reserveMinutes));
    assert [Setup(s), Bill(h, env)][1..] == [Bill(h, env)] && [Bill(h, env)][1..] == [];
    assert Exec(mid, [Bill(h, env)], reserveMinutes) == BillTx(mid, h, env);
  }

  lemma DueAtSetupRate(db: Db, s: SetupRequest, a: nat, h: Hangup) returns (due: nat)
    requires s.rateId in db.rates && s.row == db.rates[s.rateId] && s.fx != 0 && h.call == s.call
    requires var o, mid := Customer(s.customer), ReserveCallTx(db, s, a);
      IsOpenCall(mid, o, s.call) && mid.rates == db.rates && mid.cdrs[s.call] == PendingCdr(s, a)
    ensures due == Due(ReserveCallTx(db, s, a), Customer(s.customer), h)
    ensures due == 0 || due == Price(Max(h.billsec, 0), ConvertRate(s.row, s.fx))
  {
    SetupAndBillingAgree(s.row, s.fx);
    due := Due(ReserveCallTx(db, s, a), Customer(s.customer), h);
  }

  /** Between its setup and its bill a call only holds money; in the end the account has paid its price. */
  lemma {:induction false} ReservedThenBilled(db: Db, s: SetupRequest, a: nat, h: Hangup, env: Costing)
    requires Inv(db) && s.call !in db.cdrs && ReserveSucceeds(db, s, a) && h.call == s.call
    ensures var o, mid := Customer(s.customer), ReserveCallTx(db, s, a);
      && IsOpenCall(mid, o, s.call) && mid.rates == db.rates && mid.cdrs[s.call] == PendingCdr(s, a)
      && var d := BillTx(mid, h, env);
         && o in d.accounts && d.accounts[o].Available() == db.accounts[o].Available() - Due(mid, o, h)
         && d.accounts[o].Funds() >= d.accounts[o].Available()
  {
    ReserveKeepsInvIffFresh(db, s, a);
    ReserveEffect(db, s, a);
    OneBill(ReserveCallTx(db, s, a), Customer(s.customer), h, env);
    assert Reconcile(BillTx(ReserveCallTx(db, s, a), h, env), Customer(s.customer)).OK();
  }

  lemma DueWithinOneIncrement(reserveMinutes: int, seen: int, rate: Rate, capSeconds: int, billsec: int, late: nat,
                              due: nat)
    requires AdmittedAndCut(reserveMinutes, seen, rate, capSeconds, billsec, late)
    requires ReservesBlock(reserveMinutes, rate.inc)
    requires due == 0 || due == Price(Max(billsec, 0), rate)
    ensures WithinOneIncrement(due - seen, 0, rate, late)
  {
    if due == 0 {
      IncrementCounts(0 - seen, 0, rate, late);
    } else {
      OneIncrementOverrun(reserveMinutes, seen, rate, capSeconds, billsec, late);
    }
  }

  lemma {:induction false} ExecSplit(db: Db, a: seq<Step>, b: seq<Step>, reserveMinutes: int)
    ensures Exec(db, a + b, reserveMinutes) == Exec(Exec(db, a, reserveMinutes), b, reserveMinutes)
    decreases |a|
  {
    if a == [] {
      assert a + b == b;
    } else {
      ExecSplit(Apply(db, a[0], reserveMinutes), a[1..], b, reserveMinutes);
      assert (a + b)[1..] == a[1..] + b;
    }
  }

  /** One micro-unit a second, by the second. */
  const BY_SECOND := Rate(60, 0, Increments(1, 1, 0))

  function First(): SetupRequest {
    SetupRequest(1, 1, 3, BY_SECOND, FX_ONE, 600)
  }

  function Second(): SetupRequest {
    SetupRequest(2, 1, 3, BY_SECOND, FX_ONE, 300)
  }

  /** A customer with 600, who sets up two calls with five minutes reserved for each. */
  function TwoSetups(): seq<Step> {
    [OpenAccount(Customer(1)), Operator(Customer(1), Topup, 600), SetRate(3, BY_SECOND),
     Setup(First()), Setup(Second())]
  }

  /** Both talk to the limit their setup gave them. */
  function TwoHangups(): seq<Hangup> {
    [Hangup(1, true, Limit(First(), 14_400), None), Hangup(2, true, Limit(Second(), 14_400), None)]
  }

  lemma TwoLimits()
    ensures SetupAmount(First(), 5) == 300 && SetupAmount(Second(), 5) == 300
    ensures Limit(First(), 14_400) == 600 && Limit(Second(), 14_400) == 300
  {
    RoundedSecondsIsFloor(60 * 600, 60);
    RoundedSecondsIsFloor(60 * 300, 60);
  }

  lemma TwoPrices()
    ensures var rate := ToRatingFx(BY_SECOND, FX_ONE); Price(600, rate) == 600 && Price(300, rate) == 300
  {
    assert ToRatingFx(BY_SECOND, FX_ONE) == BY_SECOND;
  }

  function Start(rate: Rate): Db {
    Db(map[Customer(1) := Account(600, 0, 0)], [Entry(Customer(1), None, Topup, 600, 600)], map[], map[],
        map[3 := rate])
  }

  /** The books after both setups; they do not depend on the rate. */
  lemma {:induction false} TwoReserved(rate: Rate, first: SetupRequest, second: SetupRequest)
    requires first == SetupRequest(1, 1, 3, rate, FX_ONE, 600) && second == SetupRequest(2, 1, 3, rate, FX_ONE, 300)
    ensures var o, d := Customer(1), ReserveCallTx(ReserveCallTx(Start(rate), first, 300), second, 300);
      && Inv(d) && d.rates == map[3 := rate]
      && o in d.accounts && d.accounts[o].Available() == 0 && d.accounts[o].Funds() == 600
      && 1 in d.open && 2 in d.open && d.open[1] == d.open[2] == OpenCall(o, 300)
      && 1 in d.cdrs && 2 in d.cdrs && d.cdrs[1] == PendingCdr(first, 300) && d.cdrs[2] == PendingCdr(second, 300)
  {
    var one := ReserveCallTx(Start(rate), first, 300);
    StartInv(rate);
    ReserveKeepsInvIffFresh(Start(rate), first, 300);
    ReserveEffect(Start(rate), first, 300);
    ReserveKeepsInvIffFresh(one, second, 300);
    ReserveEffect(one, second, 300);
  }

  lemma StartInv(rate: Rate)
    ensures Inv(Start(rate))
  {
    var e := Entry(Customer(1), None, Topup, 600, 600);
    Appended([], e);
    assert [] + [e] == [e];
  }

  lemma TwoSetupsRun()
    ensures Exec(EMPTY, TwoSetups(), 5) == ReserveCallTx(ReserveCallTx(Start(BY_SECOND), First(), 300), Second(), 300)
  {
    TwoLimits();
    StartOfExample();
    ExecSplit(EMPTY, TwoSetups()[..3], TwoSetups()[3..], 5);
    assert TwoSetups()[..3] + TwoSetups()[3..] == TwoSetups();
    assert TwoSetups()[3..] == [Setup(First()), Setup(Second())];
    SetupsRun(Start(BY_SECOND), First(), Second(), 5, 300);
  }

  lemma SetupsRun(db: Db, first: SetupRequest, second: SetupRequest, reserveMinutes: int, a: nat)
    requires SetupAmount(first, reserveMinutes) == a && SetupAmount(second, reserveMinutes) == a
    ensures Exec(db, [Setup(first), Setup(second)], reserveMinutes)
        == ReserveCallTx(ReserveCallTx(db, first, a), second, a)
  {
    var one := ReserveCallTx(db, first, a);
    assert [Setup(first), Setup(second)][1..] == [Setup(second)] && [Setup(second)][1..] == [];
    assert Exec(one, [Setup(second)], reserveMinutes) == ReserveCallTx(one, second, a);
  }

  lemma {:induction false} TwoOpenCalls()
    ensures var d := Exec(EMPTY, TwoSetups(), 5);
      && Inv(d) && Customer(1) in d.accounts
      && d.accounts[Customer(1)].Available() == 0 && d.accounts[Customer(1)].Funds() == 600
      && AllOpen(d, Customer(1), TwoCalls())
  {
    TwoSetupsRun();
    TwoPrices();
    BothDescribed(BY_SECOND, First(), Second(), Running(1, 600, 300, 600), Running(2, 300, 300, 300));
  }

  lemma {:induction false} BothDescribed(rate: Rate, first: SetupRequest, second: SetupRequest, a: Running, b: Running)
    requires first == SetupRequest(1, 1, 3, rate, FX_ONE, 600) && second == SetupRequest(2, 1, 3, rate, FX_ONE, 300)
    requires a.call == 1 && a.reserved == 300 && a.limit >= 0 && a.cost == Price(a.limit, ToRatingFx(rate, FX_ONE))
    requires b.call == 2 && b.reserved == 300 && b.limit >= 0 && b.cost == Price(b.limit, ToRatingFx(rate, FX_ONE))
    ensures var d := ReserveCallTx(ReserveCallTx(Start(rate), first, 300), second, 300);
      && Inv(d) && Customer(1) in d.accounts
      && d.accounts[Customer(1)].Available() == 0 && d.accounts[Customer(1)].Funds() == 600
      && AllOpen(d, Customer(1), [a, b])
  {
    TwoReserved(rate, first, second);
    var d := ReserveCallTx(ReserveCallTx(Start(rate), first, 300), second, 300);
    BothOpen(d, rate, first, second, a, b);
  }

  lemma BothOpen(d: Db, rate: Rate, first: SetupRequest, second: SetupRequest, a: Running, b: Running)
    requires a.call != b.call && a.call in d.open && b.call in d.open && a.call in d.cdrs && b.call in d.cdrs
    requires d.open[a.call] == OpenCall(Customer(1), a.reserved) && d.open[b.call] == OpenCall(Customer(1), b.reserved)
    requires d.cdrs[a.call] == PendingCdr(first, a.reserved) && d.cdrs[b.call] == PendingCdr(second, b.reserved)
    requires first.fx == second.fx == FX_ONE && first.rateId == second.rateId && first.rateId in d.rates
    requires d.rates[first.rateId] == rate
    requires a.limit >= 0 && a.cost == Price(a.limit, ToRatingFx(rate, FX_ONE))
    requires b.limit >= 0 && b.cost == Price(b.limit, ToRatingFx(rate, FX_ONE))
    ensures AllOpen(d, Customer(1), [a, b])
  {
    OneDescribed(d, Customer(1), a, first, rate);
    OneDescribed(d, Customer(1), b, second, rate);
  }

  lemma OneDescribed(d: Db, o: Owner, r: Running, s: SetupRequest, rate: Rate)
    requires r.call in d.open && d.open[r.call] == OpenCall(o, r.reserved)
    requires r.call in d.cdrs && d.cdrs[r.call] == PendingCdr(s, r.reserved)
    requires s.fx == FX_ONE && s.rateId in d.rates && d.rates[s.rateId] == rate
    requires r.limit >= 0 && r.cost == Price(r.limit, ToRatingFx(rate, FX_ONE))
    ensures Describes(d, o, r)
  {
  }

  lemma StartOfExample()
    ensures Exec(EMPTY, TwoSetups()[..3], 5) == Start(BY_SECOND)
  {
    var steps := TwoSetups()[..3];
    assert steps[1..] == [Operator(Customer(1), Topup, 600), SetRate(3, BY_SECOND)];
    assert steps[1..][1..] == [SetRate(3, BY_SECOND)];
  }

  /** Two calls that overlap, each ended by its own limit, leave the account 300 below zero, where one
      increment is one micro-unit. */
  lemma {:induction false} OverlapOverdraws(env: Costing)
    ensures var d := Exec(EMPTY, TwoSetups() + Bills(TwoHangups(), env), 5);
      && Customer(1) in d.accounts && d.accounts[Customer(1)].Available() == d.accounts[Customer(1)].Funds() == -300
      && !AtMostOneBelow(-300, BY_SECOND)
  {
    TwoOpenCalls();
    TwoSums();
    FarBelow();
    HangupsAtLimits();
    ExecSplit(EMPTY, TwoSetups(), Bills(TwoHangups(), env), 5);
    TogetherAtLimits(Exec(EMPTY, TwoSetups(), 5), Customer(1), TwoCalls(), TwoHangups(), env, 5);
  }

  lemma FarBelow()
    ensures !AtMostOneBelow(-300, BY_SECOND)
  {
  }

  function TwoCalls(): seq<Running> {
    [Running(1, 600, 300, 600), Running(2, 300, 300, 300)]
  }

  lemma TwoSums()
    ensures ReservedSum(TwoCalls()) == 600 && LimitPrices(TwoCalls()) == 900
  {
    assert TwoCalls()[1..] == [Running(2, 300, 300, 300)] && TwoCalls()[1..][1..] == [];
  }

  lemma HangupsAtLimits()
    ensures TwoHangups() == AtLimits(TwoCalls())
  {
    TwoLimits();
  }

  lemma {:induction false} TogetherAtLimits(db: Db, o: Owner, calls: seq<Running>, hs: seq<Hangup>, env: Costing,
                                            reserveMinutes: int)
    requires Inv(db) && o in db.accounts && AllOpen(db, o, calls) && hs == AtLimits(calls)
    ensures var d := Exec(db, Bills(hs, env), reserveMinutes);
      && o in d.accounts
      && d.accounts[o].Available() == db.accounts[o].Available() + ReservedSum(calls) - LimitPrices(calls)
      && d.accounts[o].Funds() == db.accounts[o].Funds() - LimitPrices(calls)
  {
    AllWithinLimits(db, o, calls, hs, env, reserveMinutes);
  }
}
