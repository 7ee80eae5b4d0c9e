/** Conversion of deck money into account money, at call setup and again at billing. */
module Currency {
  import opened Decimal
  import opened Rating

  const TEN_MILLION := 10_000_000

  /** Money times an exchange rate (units of 1e-8), rounded to six places. */
  function Convert(money: nat, fx: nat): (m: nat)
    ensures Nearest(money * fx, FX_ONE, m)
    ensures fx == FX_ONE ==> m == money
    ensures fx == 0 ==> m == 0
  {
    RoundIsNearest(money * fx, TEN_MILLION);
    NearestMonotone(0, money * fx, FX_ONE, 0, Round(money * fx, TEN_MILLION));
    Round(money * fx, TEN_MILLION)
  }

  /** The exchange rate looked up at setup: a stored pair, or the inverse of the opposite pair
      rounded to eight places. */
  function InverseFx(rate: nat): (fx: nat)
    requires rate > 0
    ensures Nearest(FX_ONE * FX_ONE, rate, fx)
  {
    NearestMonotone(0, FX_ONE * FX_ONE, rate, 0, DivRound(FX_ONE * FX_ONE, rate));
    DivRound(FX_ONE * FX_ONE, rate)
  }

  /** The inverse of a stored pair vanishes exactly above 2e8. */
  lemma InverseFxVanishes(rate: nat)
    requires rate > 0
    ensures InverseFx(rate) == 0 <==> rate > 200_000_000 * FX_ONE
  {
    var fx := InverseFx(rate);
    if fx > 0 {
      Multiples(0, fx, rate);
    }
  }

  /** Setup: the deck rate in account money. */
  function ConvertRate(row: Rate, fx: nat): Rate
  {
    if fx == FX_ONE then row
    else Rate(Convert(row.perMinute, fx), Convert(row.connectFee, fx), row.inc)
  }

  /** What the CDR row keeps of an exchange rate: zero is written as an empty string and stored as 1. */
  function StoredFx(fx: nat): nat {
    if fx == 0 then FX_ONE else fx
  }

  /** Billing: the deck rate in account money, from the exchange rate the CDR kept. */
  function ToRatingFx(row: Rate, fx: nat): Rate
  {
    var f := if fx == 0 then FX_ONE else fx;
    Rate(Convert(row.perMinute, f), Convert(row.connectFee, f), row.inc)
  }

  /** r is the deck row in other money: rate and fee are the nearest micro-units of the products, the increments
      stay. */
  ghost predicate IsConverted(row: Rate, fx: nat, r: Rate) {
    && Nearest(row.perMinute * fx, FX_ONE, r.perMinute)
    && Nearest(row.connectFee * fx, FX_ONE, r.connectFee)
    && r.inc == row.inc
  }

  lemma SetupConverts(row: Rate, fx: nat)
    ensures IsConverted(row, fx, ConvertRate(row, fx))
  {
    assert Convert(row.perMinute, FX_ONE) == row.perMinute;
    assert Convert(row.connectFee, FX_ONE) == row.connectFee;
  }

  /** Billing converts by the kept rate; a missing one counts as one to one. */
  lemma BillingConverts(row: Rate, fx: nat)
    ensures IsConverted(row, if fx == 0 then FX_ONE else fx, ToRatingFx(row, fx))
  {
  }

  /** Billing reproduces the rate used at setup, except exactly when the exchange rate vanished
      and the deck rate is not free. */
  lemma SetupAndBillingAgree(row: Rate, fx: nat)
    ensures ConvertRate(row, fx) == ToRatingFx(row, StoredFx(fx))
       <==> fx != 0 || (row.perMinute == 0 && row.connectFee == 0)
  {
    assert Convert(row.perMinute, FX_ONE) == row.perMinute;
    assert Convert(row.connectFee, FX_ONE) == row.connectFee;
  }
}
