/** The rating engine: increments, price, reservation amount and call-length limit.

Money is in micro-units.  Rates and fees are non-negative, as the rates table demands.
*/
module Rating {
  import opened Decimal

  datatype Increments = Increments(initial: int, subsequent: int, minDuration: int)

  datatype Rate = Rate(perMinute: nat, connectFee: nat, inc: Increments)

  function Max(a: int, b: int): int {
    if a < b then b else a
  }

  function Initial(inc: Increments): (i: int)
    ensures i >= 1
  {
    if inc.initial <= 0 then 1 else inc.initial
  }

  function Subsequent(inc: Increments): (s: int)
    ensures s >= 1
  {
    if inc.subsequent <= 0 then 1 else inc.subsequent
  }

  /** n is a duration the increments can bill: the initial block plus whole further blocks, each of at least a
      second. */
  ghost predicate Billable(n: int, inc: Increments)
  {
    exists k: nat :: n == Max(1, inc.initial) + k * Max(1, inc.subsequent)
  }

  function BilledSeconds(billsec: int, inc: Increments): (n: int)
    ensures n == 0 <==> billsec <= 0 || billsec < inc.minDuration
    ensures n >= 0
  {
    if billsec <= 0 then 0
    else if billsec < inc.minDuration then 0
    else if billsec <= Initial(inc) then Initial(inc)
    else
      var blocks := (billsec - Initial(inc) + Subsequent(inc) - 1) / Subsequent(inc);
      assert blocks * Subsequent(inc) >= 0;
      Initial(inc) + blocks * Subsequent(inc)
  }

  /** A billed call is billed for the least billable duration that covers it. */
  lemma BilledSecondsIsLeast(billsec: int, inc: Increments)
    requires billsec > 0 && billsec >= inc.minDuration
    ensures Billable(BilledSeconds(billsec, inc), inc)
    ensures billsec <= BilledSeconds(billsec, inc)
    ensures forall n | Billable(n, inc) && billsec <= n :: BilledSeconds(billsec, inc) <= n
  {
    var i, s := Initial(inc), Subsequent(inc);
    var blocks: nat := if billsec <= i then 0 else (billsec - i + s - 1) / s;
    assert i == Max(1, inc.initial) && s == Max(1, inc.subsequent);
    assert BilledSeconds(billsec, inc) == Max(1, inc.initial) + blocks * Max(1, inc.subsequent);
    assert billsec > i ==> (billsec - i + s - 1) - s < blocks * s <= billsec - i + s - 1;
    forall n | Billable(n, inc) && billsec <= n
      ensures i + blocks * s <= n
    {
      var k: nat :| n == i + k * s;
      if k < blocks {
        Multiples(k, blocks, s);
      } else if blocks < k {
        Multiples(blocks, k, s);
      }
    }
  }

  /** The billed duration runs past the real one by less than the larger block. */
  lemma BilledSecondsOverrun(billsec: int, inc: Increments)
    requires billsec > 0
    ensures BilledSeconds(billsec, inc) - billsec <= Max(Initial(inc), Subsequent(inc)) - 1
  {
    if billsec >= inc.minDuration && billsec > Initial(inc) {
      var s := Subsequent(inc);
      var x := billsec - Initial(inc) + s - 1;
      assert (x / s) * s <= x;
    }
  }

  lemma BilledSecondsMonotone(a: int, b: int, inc: Increments)
    requires a <= b
    ensures BilledSeconds(a, inc) <= BilledSeconds(b, inc)
  {
    if a > 0 && a >= inc.minDuration {
      BilledSecondsIsLeast(a, inc);
      BilledSecondsIsLeast(b, inc);
    }
  }

  /** The seconds billed beyond those talked stay within one subsequent increment for every call exactly
      when the initial block is short enough. */
  lemma SecondsOverrunIff(inc: Increments)
    ensures (forall b: nat :: BilledSeconds(b, inc) - b <= Subsequent(inc))
       <==> Initial(inc) - ShortestBilled(inc) <= Subsequent(inc)
  {
    var first := ShortestBilled(inc);
    if Initial(inc) - first <= Subsequent(inc) {
      forall b: nat
        ensures BilledSeconds(b, inc) - b <= Subsequent(inc)
      {
        if b > Initial(inc) {
          BeyondInitial(b, inc);
        }
      }
    } else {
      assert BilledSeconds(first, inc) - first > Subsequent(inc);
    }
  }

  /** The shortest call that is billed at all. */
  function ShortestBilled(inc: Increments): (n: nat)
    ensures n > 0 && BilledSeconds(n, inc) > 0
    ensures forall b | BilledSeconds(b, inc) > 0 :: n <= b
  {
    Max(1, inc.minDuration)
  }

  /** Past the initial block less than one subsequent increment is added. */
  lemma BeyondInitial(billsec: int, inc: Increments)
    requires billsec > Initial(inc)
    ensures BilledSeconds(billsec, inc) - billsec <= Subsequent(inc) - 1
  {
    if billsec >= inc.minDuration {
      var s := Subsequent(inc);
      var x := billsec - Initial(inc) + s - 1;
      assert (x / s) * s <= x;
    }
  }

  /** Usage is divided at ten places, added to the fee, and rounded again to six. */
  function Amount(billedSeconds: int, ratePerMin: nat, connectFee: nat): (a: int)
  {
    if billedSeconds <= 0 then 0
    else Round(connectFee * 10_000 + DivRound(ratePerMin * billedSeconds * 10_000, 60), 1000)
  }

  /** The two roundings of Amount amount to one exact rounding of fee + rate * seconds / 60. */
  lemma AmountIsExact(billedSeconds: int, ratePerMin: nat, connectFee: nat)
    requires billedSeconds > 0
    ensures Nearest(60 * connectFee + ratePerMin * billedSeconds, 60,
                    Amount(billedSeconds, ratePerMin, connectFee))
  {
    var x := ratePerMin * billedSeconds;
    assert x >= 0;
    RoundIsNearest(connectFee * 10_000 + DivRound(x * 10_000, 60), 1000);
    TwoRoundings(x, connectFee, DivRound(x * 10_000, 60), Amount(billedSeconds, ratePerMin, connectFee));
  }

  /** Remainders modulo 60 are too coarse for the intermediate rounding to cross a tie. */
  lemma TwoRoundings(x: nat, fee: nat, u: int, a: int)
    requires Nearest(x * 10_000, 60, u)
    requires Nearest(fee * 10_000 + u, 10_000, a)
    ensures Nearest(60 * fee + x, 60, a)
  {
    var k, r := x / 60, x % 60;
    assert x == 60 * k + r;
    var w := u - 10_000 * k;
    assert 2 * Abs(r * 10_000 - w * 60) <= 60;
    if r < 30 {
      assert w < 5000;
    } else {
      assert w >= 5000;
    }
  }

  lemma AmountMonotone(a: int, b: int, ratePerMin: nat, connectFee: nat)
    requires a <= b
    ensures 0 <= Amount(a, ratePerMin, connectFee) <= Amount(b, ratePerMin, connectFee)
  {
    if b > 0 {
      AmountIsExact(b, ratePerMin, connectFee);
      if a > 0 {
        AmountIsExact(a, ratePerMin, connectFee);
        UsageGrows(a, b, ratePerMin);
        NearestMonotone(60 * connectFee + ratePerMin * a, 60 * connectFee + ratePerMin * b, 60,
                        Amount(a, ratePerMin, connectFee), Amount(b, ratePerMin, connectFee));
      } else {
        UsageGrows(0, b, ratePerMin);
        NearestMonotone(0, 60 * connectFee + ratePerMin * b, 60, 0, Amount(b, ratePerMin, connectFee));
      }
    }
  }

  lemma UsageGrows(a: int, b: int, rate: nat)
    requires 0 <= a <= b
    ensures 0 <= rate * a <= rate * b
  {
    assert rate * b == rate * a + rate * (b - a);
  }

  function Price(billsec: int, r: Rate): int {
    Amount(BilledSeconds(billsec, r.inc), r.perMinute, r.connectFee)
  }

  /** n is what a call of billsec seconds is billed for: nothing when it was not answered or is below the minimum,
      else the least billable duration that covers it. */
  ghost predicate IsBilled(n: int, billsec: int, inc: Increments) {
    if billsec <= 0 || billsec < inc.minDuration then n == 0
    else Billable(n, inc) && billsec <= n && forall m | Billable(m, inc) && billsec <= m :: n <= m
  }

  /** q is the price of a call: nothing, or fee and usage of the billed seconds, rounded once. */
  ghost predicate IsPrice(q: int, billsec: int, r: Rate) {
    exists n :: IsBilled(n, billsec, r.inc) && IsCharge(q, n, r)
  }

  ghost predicate IsCharge(q: int, n: int, r: Rate) {
    if n <= 0 then q == 0 else Nearest(60 * r.connectFee + r.perMinute * n, 60, q)
  }

  lemma PriceIsExact(billsec: int, r: Rate)
    ensures IsPrice(Price(billsec, r), billsec, r)
  {
    var n := BilledSeconds(billsec, r.inc);
    if n > 0 {
      BilledSecondsIsLeast(billsec, r.inc);
      AmountIsExact(n, r.perMinute, r.connectFee);
    }
    assert IsBilled(n, billsec, r.inc) && IsCharge(Price(billsec, r), n, r);
  }

  /** The reservation is the price of the reserved minutes. */
  lemma ReserveIsExact(reserveMinutes: int, r: Rate)
    ensures IsPrice(ReserveAmount(reserveMinutes, r), 60 * reserveMinutes, r)
  {
    PriceIsExact(60 * reserveMinutes, r);
  }

  /** A call has one price. */
  lemma PriceUnique(p: int, q: int, billsec: int, r: Rate)
    requires IsPrice(p, billsec, r) && IsPrice(q, billsec, r)
    ensures p == q
  {
    var m :| IsBilled(m, billsec, r.inc) && IsCharge(p, m, r);
    var n :| IsBilled(n, billsec, r.inc) && IsCharge(q, n, r);
    assert m == n;
    if n > 0 {
      NearestUnique(60 * r.connectFee + r.perMinute * n, 60, p, q);
    }
  }

  /** A longer call never costs less. */
  lemma PriceMonotone(a: int, b: int, r: Rate)
    requires a <= b
    ensures 0 <= Price(a, r) <= Price(b, r)
  {
    BilledSecondsMonotone(a, b, r.inc);
    AmountMonotone(BilledSeconds(a, r.inc), BilledSeconds(b, r.inc), r.perMinute, r.connectFee);
  }

  function ReserveAmount(reserveMinutes: int, r: Rate): int {
    Price(reserveMinutes * 60, r)
  }

  /** Precision of an unqualified decimal division: sixteen places. */
  const DIV_UNIT := 10_000_000_000_000_000

  function MaxCallSeconds(spendable: int, r: Rate, capSeconds: int): (n: int)
    ensures 0 <= n && (capSeconds >= 0 ==> n <= capSeconds)
  {
    if capSeconds <= 0 then 0
    else if spendable <= 0 then 0
    else
      var afterFee := spendable - r.connectFee;
      if afterFee <= 0 then 0
      else if r.perMinute <= 0 then capSeconds
      else
        var secs := RoundedSeconds(60 * afterFee, r.perMinute);
        if secs > capSeconds then capSeconds else secs
  }

  /** The floor of a quotient that was first rounded to sixteen places. */
  function RoundedSeconds(x: nat, rate: nat): (secs: int)
    requires rate > 0
    ensures secs >= 0
  {
    NearestMonotone(0, x * DIV_UNIT, rate, 0, DivRound(x * DIV_UNIT, rate));
    DivRound(x * DIV_UNIT, rate) / DIV_UNIT
  }

  /** The quotient x / rate lies within half a unit of the sixteenth place below a whole number,
      so rounding it reaches that number. */
  predicate RoundsUpToWhole(x: nat, rate: nat)
    requires rate > 0
  {
    2 * DIV_UNIT * (rate - x % rate) <= rate
  }

  /** The rounded quotient has the true floor exactly when rounding does not reach the next whole number. */
  lemma RoundedSecondsIsFloor(x: nat, rate: nat)
    requires rate > 0
    ensures RoundedSeconds(x, rate) == x / rate + (if RoundsUpToWhole(x, rate) then 1 else 0)
  {
    RoundedQuotientFloor(x, rate, DivRound(x * DIV_UNIT, rate));
  }

  lemma RoundedQuotientFloor(x: nat, rate: nat, q: int)
    requires rate > 0 && Nearest(x * DIV_UNIT, rate, q)
    ensures q / DIV_UNIT == x / rate + (if RoundsUpToWhole(x, rate) then 1 else 0)
  {
    var k, r := WholeAndRest(x, rate);
    QuotientNonNegative(x * DIV_UNIT, rate, q);
    QuotientFloor(x, rate, k, r, q);
  }

  lemma WholeAndRest(x: nat, rate: nat) returns (k: nat, r: nat)
    requires rate > 0
    ensures k == x / rate && r == x % rate && x == k * rate + r && r < rate
  {
    k, r := x / rate, x % rate;
  }

  lemma QuotientNonNegative(n: nat, d: nat, q: int)
    requires d > 0 && Nearest(n, d, q)
    ensures q >= 0
  {
    NearestMonotone(0, n, d, 0, q);
  }

  lemma QuotientFloor(x: nat, rate: nat, k: nat, r: nat, q: nat)
    requires r < rate && x == k * rate + r && Nearest(x * DIV_UNIT, rate, q)
    ensures q / DIV_UNIT == k + (if 2 * DIV_UNIT * (rate - r) <= rate then 1 else 0)
  {
    WholePart(x, rate, k, r, q);
    Multiples(-1, q, rate);
    Fraction(r, rate, q - k * DIV_UNIT);
  }

  lemma WholePart(x: nat, rate: nat, k: nat, r: nat, q: nat)
    requires x == k * rate + r
    ensures x * DIV_UNIT - q * rate == r * DIV_UNIT - (q - k * DIV_UNIT) * rate
  {
    assert x * DIV_UNIT == (k * rate) * DIV_UNIT + r * DIV_UNIT;
    assert (q - k * DIV_UNIT) * rate == q * rate - (k * rate) * DIV_UNIT;
  }

  lemma Fraction(r: nat, rate: nat, w: int)
    requires r < rate && 2 * Abs(r * DIV_UNIT - w * rate) <= rate
    requires 2 * Abs(r * DIV_UNIT - w * rate) == rate ==> r * DIV_UNIT < w * rate
    ensures 0 <= w <= DIV_UNIT
    ensures w == DIV_UNIT <==> 2 * DIV_UNIT * (rate - r) <= rate
  {
    if w < 0 {
      Multiples(w, 0, rate);
    } else if w > DIV_UNIT {
      Multiples(DIV_UNIT, w, rate);
    } else if w < DIV_UNIT {
      Multiples(w, DIV_UNIT, rate);
    }
  }

  /** No rate below 2e16 micro-units a minute can round up to a whole number of seconds. */
  lemma OrdinaryRatesRoundDown(x: nat, rate: nat)
    requires 0 < rate < 2 * DIV_UNIT
    ensures !RoundsUpToWhole(x, rate)
  {
  }

  /** fee + rate * n / 60 is within the money. */
  predicate Affordable(n: int, spendable: int, r: Rate) {
    60 * r.connectFee + r.perMinute * n <= 60 * spendable
  }

  ghost predicate IsLongestAffordable(n: int, spendable: int, r: Rate, capSeconds: int) {
    && 0 <= n <= capSeconds
    && Affordable(n, spendable, r)
    && forall m | n < m <= capSeconds :: !Affordable(m, spendable, r)
  }

  /** MaxCallSeconds can exceed the affordable time: the quotient rounds up and the cap does not hide it. */
  predicate OverestimatesTime(spendable: int, r: Rate, capSeconds: int)
    requires spendable > r.connectFee
  {
    && r.perMinute > 0
    && RoundsUpToWhole(60 * (spendable - r.connectFee), r.perMinute)
    && 60 * (spendable - r.connectFee) / r.perMinute < capSeconds
  }

  /** With money left after the fee, the limit is the longest affordable call, except exactly
      when the rounded quotient overestimates it. */
  lemma MaxCallSecondsIsLongest(spendable: int, r: Rate, capSeconds: int)
    requires capSeconds > 0 && spendable > r.connectFee
    ensures IsLongestAffordable(MaxCallSeconds(spendable, r, capSeconds), spendable, r, capSeconds)
       <==> !OverestimatesTime(spendable, r, capSeconds)
  {
    var n := MaxCallSeconds(spendable, r, capSeconds);
    if r.perMinute > 0 {
      var x := 60 * (spendable - r.connectFee);
      var k := x / r.perMinute;
      RoundedSecondsIsFloor(x, r.perMinute);
      forall m
        ensures Affordable(m, spendable, r) <==> m <= k
      {
        AffordableUpTo(m, spendable, r);
      }
      assert n == if k < capSeconds then RoundedSeconds(x, r.perMinute) else capSeconds;
    }
  }

  lemma AffordableUpTo(m: int, spendable: int, r: Rate)
    requires r.perMinute > 0
    ensures Affordable(m, spendable, r) <==> m <= 60 * (spendable - r.connectFee) / r.perMinute
  {
    var x := 60 * (spendable - r.connectFee);
    var k := x / r.perMinute;
    assert x == k * r.perMinute + x % r.perMinute;
    if m < k {
      Multiples(m, k, r.perMinute);
    } else if k < m {
      Multiples(k, m, r.perMinute);
    }
  }

  /** A rate the rates table can hold for which the limit is one second too long. */
  lemma OverestimateWitness()
    ensures var r := Rate(20_000_000_000_000_003, 0, Increments(1, 1, 0));
            var spendable := 15_666_666_666_666_669;
            && OverestimatesTime(spendable, r, 14_400)
            && MaxCallSeconds(spendable, r, 14_400) == 47
            && !Affordable(47, spendable, r)
  {
    RoundedSecondsIsFloor(60 * 15_666_666_666_666_669, 20_000_000_000_000_003);
  }

  /** A call cut at its limit costs at most the money it was sized for, plus the part of a block
      the increments add, plus half a micro-unit of rounding. */
  lemma OvershootBound(spendable: int, r: Rate, capSeconds: int, billsec: int)
    requires spendable > 0
    requires spendable > r.connectFee ==> !OverestimatesTime(spendable, r, capSeconds)
    requires billsec <= MaxCallSeconds(spendable, r, capSeconds)
    ensures 60 * Price(billsec, r)
         <= 60 * spendable + r.perMinute * (Max(Initial(r.inc), Subsequent(r.inc)) - 1) + 30
  {
    var extra := Max(Initial(r.inc), Subsequent(r.inc)) - 1;
    UsageGrows(0, extra, r.perMinute);
    if BilledSeconds(billsec, r.inc) > 0 {
      LimitAffordable(spendable, r, capSeconds);
      BilledSecondsOverrun(billsec, r.inc);
      PriceBeyondLimit(billsec, MaxCallSeconds(spendable, r, capSeconds), extra, spendable, r);
    }
  }

  /** A call billed at most extra seconds beyond what the money affords. */
  lemma PriceBeyondLimit(billsec: int, n: int, extra: int, spendable: int, r: Rate)
    requires Affordable(n, spendable, r) && 0 < BilledSeconds(billsec, r.inc) <= n + extra
    ensures 60 * Price(billsec, r) <= 60 * spendable + r.perMinute * extra + 30
  {
    var billed := BilledSeconds(billsec, r.inc);
    AmountIsExact(billed, r.perMinute, r.connectFee);
    LinearBound(billed, n, extra, r.perMinute);
  }

  // ---- one increment of overrun ----

  /** The price exceeds the money by at most one subsequent increment at the rate, less a second of it,
      plus the seconds the hangup came late, and half a micro-unit of rounding. */
  predicate WithinOneIncrement(price: int, spendable: int, r: Rate, late: nat) {
    60 * price <= 60 * spendable + r.perMinute * (Subsequent(r.inc) - 1 + late) + 30
  }

  /** The money passes the check at setup, and the call is cut at the limit computed from it, or some
      seconds late. */
  ghost predicate AdmittedAndCut(reserveMinutes: int, spendable: int, r: Rate, capSeconds: int, billsec: int,
                                 late: nat) {
    && spendable > 0 && spendable >= ReserveAmount(reserveMinutes, r)
    && (spendable > r.connectFee ==> !OverestimatesTime(spendable, r, capSeconds))
    && billsec <= MaxCallSeconds(spendable, r, capSeconds) + late
  }

  /** The reserved minutes are long enough to be billed, so the reservation covers the initial block. */
  predicate ReservesBlock(reserveMinutes: int, inc: Increments) {
    60 * reserveMinutes >= ShortestBilled(inc)
  }

  /** A call cut at its limit never costs more than the money its limit came from and one subsequent
      increment, also when the hangup is a second late: a call inside the reserved or the initial block is
      covered by the reservation, which the money covered; a longer one adds less than one increment to
      what the limit affords. */
  lemma OneIncrementOverrun(reserveMinutes: int, spendable: int, r: Rate, capSeconds: int, billsec: int, late: nat)
    requires AdmittedAndCut(reserveMinutes, spendable, r, capSeconds, billsec, late)
    requires ReservesBlock(reserveMinutes, r.inc)
    ensures WithinOneIncrement(Price(billsec, r), spendable, r, late)
  {
    if billsec <= Initial(r.inc) || billsec <= 60 * reserveMinutes {
      ShortCallReserved(reserveMinutes, r, billsec);
      IncrementCounts(Price(billsec, r), spendable, r, late);
    } else {
      ReservationCoversFee(reserveMinutes, r);
      LongCallOverrun(spendable, r, capSeconds, billsec, late);
    }
  }

  lemma ReservationCoversFee(reserveMinutes: int, r: Rate)
    requires ReservesBlock(reserveMinutes, r.inc)
    ensures ReserveAmount(reserveMinutes, r) >= r.connectFee
  {
    var n := BilledSeconds(60 * reserveMinutes, r.inc);
    AmountIsExact(n, r.perMinute, r.connectFee);
    UsageGrows(0, n, r.perMinute);
  }

  lemma ShortCallReserved(reserveMinutes: int, r: Rate, billsec: int)
    requires ReservesBlock(reserveMinutes, r.inc) && (billsec <= Initial(r.inc) || billsec <= 60 * reserveMinutes)
    ensures Price(billsec, r) <= ReserveAmount(reserveMinutes, r)
  {
    var n := 60 * reserveMinutes;
    if billsec <= n {
      BilledSecondsMonotone(billsec, n, r.inc);
    } else {
      BilledSecondsMonotone(n, billsec, r.inc);
      assert BilledSeconds(n, r.inc) == Initial(r.inc);
    }
    AmountMonotone(BilledSeconds(billsec, r.inc), BilledSeconds(n, r.inc), r.perMinute, r.connectFee);
  }

  lemma LongCallOverrun(spendable: int, r: Rate, capSeconds: int, billsec: int, late: nat)
    requires spendable > 0 && spendable >= r.connectFee && billsec <= MaxCallSeconds(spendable, r, capSeconds) + late
    requires spendable > r.connectFee ==> !OverestimatesTime(spendable, r, capSeconds)
    requires billsec > Initial(r.inc)
    ensures WithinOneIncrement(Price(billsec, r), spendable, r, late)
  {
    var n, billed := MaxCallSeconds(spendable, r, capSeconds), BilledSeconds(billsec, r.inc);
    BeyondInitial(billsec, r.inc);
    if billed > 0 {
      LimitAffordable(spendable, r, capSeconds);
      PriceBeyondLimit(billsec, n, Subsequent(r.inc) - 1 + late, spendable, r);
    } else {
      IncrementCounts(0, spendable, r, late);
    }
  }

  lemma LimitAffordable(spendable: int, r: Rate, capSeconds: int)
    requires spendable >= r.connectFee && (spendable > r.connectFee ==> !OverestimatesTime(spendable, r, capSeconds))
    ensures Affordable(MaxCallSeconds(spendable, r, capSeconds), spendable, r)
  {
    if capSeconds > 0 && spendable > r.connectFee {
      MaxCallSecondsIsLongest(spendable, r, capSeconds);
    }
  }

  lemma IncrementCounts(price: int, spendable: int, r: Rate, late: nat)
    requires price <= spendable
    ensures WithinOneIncrement(price, spendable, r, late)
  {
    UsageGrows(0, Subsequent(r.inc) - 1 + late, r.perMinute);
  }

  /** The least money whose call limit reaches n seconds. */
  function LeastMoneyFor(n: nat, r: Rate): int {
    r.connectFee + Max(1, (r.perMinute * n + 59) / 60)
  }

  /** The hangup alone, coming late, gives every admitted call enough seconds to be billed. */
  predicate BilledByDelay(inc: Increments, late: nat) {
    ShortestBilled(inc) <= late
  }

  /** Without a reservation that covers the initial block, one call decides: the shortest billed one from the
      least money that allows it, or, when the delay alone is billed, the delay from the least money there is. */
  predicate WorstCallFits(r: Rate, late: nat) {
    var first := ShortestBilled(r.inc);
    if BilledByDelay(r.inc, late) then WithinOneIncrement(Price(late, r), 1, r, late)
    else WithinOneIncrement(Price(first, r), LeastMoneyFor(first - late, r), r, late)
  }

  /** The one-increment overrun holds for every amount of money and every talk time exactly when the
      reservation covers the initial block, or no call is long enough to be billed, or the worst call fits.
      With a hangup at most a second late the bound is one whole subsequent increment. */
  lemma OneIncrementOverrunIff(reserveMinutes: int, r: Rate, capSeconds: int, late: nat)
    ensures (forall spendable, billsec | AdmittedAndCut(reserveMinutes, spendable, r, capSeconds, billsec, late) ::
               WithinOneIncrement(Price(billsec, r), spendable, r, late))
       <==> ReservesBlock(reserveMinutes, r.inc) || Max(capSeconds, 0) + late < ShortestBilled(r.inc) ||
            WorstCallFits(r, late)
  {
    var first := ShortestBilled(r.inc);
    if ReservesBlock(reserveMinutes, r.inc) || Max(capSeconds, 0) + late < first || WorstCallFits(r, late) {
      forall spendable, billsec | AdmittedAndCut(reserveMinutes, spendable, r, capSeconds, billsec, late)
        ensures WithinOneIncrement(Price(billsec, r), spendable, r, late)
      {
        if ReservesBlock(reserveMinutes, r.inc) {
          OneIncrementOverrun(reserveMinutes, spendable, r, capSeconds, billsec, late);
        } else {
          OverrunWithoutReservation(spendable, r, capSeconds, billsec, late);
        }
      }
    } else {
      var spendable, billsec := WorstCall(reserveMinutes, r, capSeconds, late);
      assert AdmittedAndCut(reserveMinutes, spendable, r, capSeconds, billsec, late);
    }
  }

  /** The call that overruns when nothing prevents it. */
  lemma WorstCall(reserveMinutes: int, r: Rate, capSeconds: int, late: nat) returns (spendable: int, billsec: int)
    requires !ReservesBlock(reserveMinutes, r.inc) && Max(capSeconds, 0) + late >= ShortestBilled(r.inc)
    requires !WorstCallFits(r, late)
    ensures AdmittedAndCut(reserveMinutes, spendable, r, capSeconds, billsec, late)
    ensures !WithinOneIncrement(Price(billsec, r), spendable, r, late)
  {
    var first := ShortestBilled(r.inc);
    assert ReserveAmount(reserveMinutes, r) == 0;
    if BilledByDelay(r.inc, late) {
      spendable, billsec := 1, late;
      if r.perMinute > 0 && 1 > r.connectFee {
        SmallRestRoundsDown(60, r.perMinute, 0);
      }
    } else {
      spendable, billsec := LeastMoneyFor(first - late, r), first;
      LeastMoneyReaches(first - late, r, capSeconds);
    }
  }

  lemma OverrunWithoutReservation(spendable: int, r: Rate, capSeconds: int, billsec: int, late: nat)
    requires spendable > 0 && billsec <= MaxCallSeconds(spendable, r, capSeconds) + late
    requires Max(capSeconds, 0) + late < ShortestBilled(r.inc) || WorstCallFits(r, late)
    requires spendable > r.connectFee ==> !OverestimatesTime(spendable, r, capSeconds)
    ensures WithinOneIncrement(Price(billsec, r), spendable, r, late)
  {
    var first := ShortestBilled(r.inc);
    if BilledSeconds(billsec, r.inc) == 0 {
      IncrementCounts(0, spendable, r, late);
    } else if billsec > Initial(r.inc) && spendable >= r.connectFee {
      LongCallOverrun(spendable, r, capSeconds, billsec, late);
    } else if BilledByDelay(r.inc, late) {
      DelayDecides(spendable, r, capSeconds, billsec, late);
    } else {
      LeastMoneyNeeded(first - late, spendable, r, capSeconds);
      assert BilledSeconds(billsec, r.inc) == BilledSeconds(first, r.inc);
    }
  }

  /** A call inside the initial block, or made on less than the fee, costs no more than the delay alone. */
  lemma DelayDecides(spendable: int, r: Rate, capSeconds: int, billsec: int, late: nat)
    requires spendable > 0 && billsec <= MaxCallSeconds(spendable, r, capSeconds) + late
    requires BilledByDelay(r.inc, late) && WorstCallFits(r, late)
    requires billsec <= Initial(r.inc) || spendable < r.connectFee
    ensures WithinOneIncrement(Price(billsec, r), spendable, r, late)
  {
    if billsec <= late {
      PriceMonotone(billsec, late, r);
    } else {
      assert BilledSeconds(billsec, r.inc) == BilledSeconds(late, r.inc);
    }
  }

  /** A limit of n seconds or more needs at least that money. */
  lemma LeastMoneyNeeded(n: nat, spendable: int, r: Rate, capSeconds: int)
    requires n > 0 && spendable > 0 && n <= MaxCallSeconds(spendable, r, capSeconds)
    requires spendable > r.connectFee ==> !OverestimatesTime(spendable, r, capSeconds)
    ensures LeastMoneyFor(n, r) <= spendable
  {
    var top := MaxCallSeconds(spendable, r, capSeconds);
    MaxCallSecondsIsLongest(spendable, r, capSeconds);
    UsageGrows(n, top, r.perMinute);
    CeilingOf(r.perMinute * n, spendable - r.connectFee);
  }

  lemma CeilingOf(x: nat, m: int)
    requires x <= 60 * m
    ensures (x + 59) / 60 <= m
  {
  }

  /** Less than a minute's worth beyond a whole quotient never rounds up to the next one. */
  lemma SmallRestRoundsDown(x: nat, rate: nat, n: nat)
    requires rate > 0 && rate * n <= x <= rate * n + 60
    ensures !RoundsUpToWhole(x, rate)
  {
    if rate < 2 * DIV_UNIT {
      OrdinaryRatesRoundDown(x, rate);
    } else {
      RestOf(x, rate, n);
    }
  }

  lemma RestOf(x: nat, rate: nat, n: nat)
    requires rate * n <= x < rate * n + rate
    ensures x % rate == x - rate * n
  {
    var k, rest := WholeAndRest(x, rate);
    assert rate * k + rest == x;
    if k < n {
      Multiples(k, n, rate);
    } else if k > n {
      Multiples(n, k, rate);
    }
  }

  /** And that money reaches n seconds, unless the cap is shorter. */
  lemma LeastMoneyReaches(n: nat, r: Rate, capSeconds: int)
    requires 0 < n <= capSeconds
    ensures var s := LeastMoneyFor(n, r);
      && s > r.connectFee && !OverestimatesTime(s, r, capSeconds)
      && n <= MaxCallSeconds(s, r, capSeconds)
  {
    var s := LeastMoneyFor(n, r);
    if r.perMinute > 0 {
      UsageGrows(1, n, r.perMinute);
      SmallRestRoundsDown(60 * (s - r.connectFee), r.perMinute, n);
      MaxCallSecondsIsLongest(s, r, capSeconds);
      assert Affordable(n, s, r);
    }
  }

  /** Where the reserved minute is too short to be billed: 90 buys 90 seconds, which cost the whole
      initial block of 600. */
  lemma OverrunWitness()
    ensures var r := Rate(60, 0, Increments(600, 1, 90));
      && ReserveAmount(1, r) == 0
      && MaxCallSeconds(90, r, 14_400) == 90
      && Price(90, r) == 600
      && !WithinOneIncrement(600, 90, r, 1)
  {
    RoundedSecondsIsFloor(60 * 90, 60);
  }

  lemma LinearBound(a: int, n: int, extra: int, rate: nat)
    requires a <= n + extra
    ensures rate * a <= rate * n + rate * extra
  {
    assert rate * n + rate * extra - rate * a == rate * (n + extra - a);
  }
}
