/** The per-carrier circuit breaker: expiring counters that agree with the history of attempts. */
module Breaker {
  import opened Basics

  datatype Outcome = CarrierFault | Answered | NumberFault | Other

  /** A key with its time of expiry in seconds; None never expires. */
  datatype Timed = Timed(value: nat, expires: Option<nat>)

  predicate Present(k: Option<Timed>, now: nat) {
    k.Some? && (k.value.expires.Some? ==> now < k.value.expires.value)
  }

  function Read(k: Option<Timed>, now: nat): nat {
    if Present(k, now) then k.value.value else 0
  }

  function Lookup(m: map<nat, Timed>, minute: int): Option<Timed> {
    if minute >= 0 && minute in m then Some(m[minute]) else None
  }

  const BUCKET_TTL := 360
  const CONSEC_TTL := 600

  // ---- the history ----

  /** One counted attempt; tripped says whether it opened the breaker. */
  datatype Event = Event(at: nat, outcome: Outcome, tripped: bool)

  ghost predicate Ordered(h: seq<Event>) {
    && (forall i | 0 <= i < |h| :: !h[i].outcome.Other?)
    && (forall i, j | 0 <= i < j < |h| :: h[i].at <= h[j].at)
  }

  ghost function LastAt(h: seq<Event>): nat {
    if h == [] then 0 else h[|h| - 1].at
  }

  /** Attempts in the minutes lo to hi, and the answered ones. */
  ghost function Attempts(h: seq<Event>, lo: int, hi: int): nat {
    if h == [] then 0
    else Attempts(h[..|h| - 1], lo, hi) + if lo <= h[|h| - 1].at / 60 <= hi then 1 else 0
  }

  ghost function Answers(h: seq<Event>, lo: int, hi: int): nat {
    if h == [] then 0
    else Answers(h[..|h| - 1], lo, hi) + if lo <= h[|h| - 1].at / 60 <= hi && h[|h| - 1].outcome.Answered? then 1 else 0
  }

  /** Carrier faults in a row up to now: broken by an answer, a number fault, a trip, or ten minutes without an
      attempt. */
  ghost function Streak(h: seq<Event>, now: nat): nat {
    if h == [] then 0
    else
      var e := h[|h| - 1];
      if now >= e.at + CONSEC_TTL || e.tripped || !e.outcome.CarrierFault? then 0
      else 1 + Streak(h[..|h| - 1], e.at)
  }

  /** Some trip is less than the penalty ago; without a penalty time a trip is for good. */
  ghost predicate DegradedBy(h: seq<Event>, penalty: nat, now: nat) {
    exists i :: 0 <= i < |h| && h[i].tripped && (penalty == 0 || now < h[i].at + penalty)
  }

  lemma {:induction false} SplitWindow(h: seq<Event>, lo: int, mid: int, hi: int)
    requires lo <= mid + 1 && mid <= hi
    ensures Attempts(h, lo, hi) == Attempts(h, lo, mid) + Attempts(h, mid + 1, hi)
    ensures Answers(h, lo, hi) == Answers(h, lo, mid) + Answers(h, mid + 1, hi)
  {
    if h != [] {
      SplitWindow(h[..|h| - 1], lo, mid, hi);
    }
  }

  lemma {:induction false} EmptyWindow(h: seq<Event>, lo: int, hi: int)
    requires hi < lo
    ensures Attempts(h, lo, hi) == 0 && Answers(h, lo, hi) == 0
  {
    if h != [] {
      EmptyWindow(h[..|h| - 1], lo, hi);
    }
  }

  lemma HistoryNext(h: seq<Event>, e: Event, lo: int, hi: int)
    ensures Attempts(h + [e], lo, hi) == Attempts(h, lo, hi) + if lo <= e.at / 60 <= hi then 1 else 0
    ensures Answers(h + [e], lo, hi)
        == Answers(h, lo, hi) + if lo <= e.at / 60 <= hi && e.outcome.Answered? then 1 else 0
  {
    assert (h + [e])[..|h|] == h;
  }

  // ---- the keys against the history ----

  /** A bucket holds the exact count of its minute and lives at least six minutes from its start. */
  ghost predicate BucketsExact(h: seq<Event>, att: map<nat, Timed>, ans: map<nat, Timed>) {
    && (forall m: nat ::
         m in att ==>
           att[m].value == Attempts(h, m, m) && att[m].expires.Some? && att[m].expires.value >= 60 * m + BUCKET_TTL)
    && (forall m: nat :: m !in att ==> Attempts(h, m, m) == 0)
    && (forall m: nat ::
         m in ans ==>
           ans[m].value == Answers(h, m, m) && ans[m].expires.Some? && ans[m].expires.value >= 60 * m + BUCKET_TTL)
    && (forall m: nat :: m !in ans ==> Answers(h, m, m) == 0)
  }

  ghost predicate ConsecExact(h: seq<Event>, consec: Option<Timed>) {
    if h == [] then consec == None else consec == Some(Timed(Streak(h, LastAt(h)), Some(LastAt(h) + CONSEC_TTL)))
  }

  /** The degraded key carries the expiry of the latest trip. */
  ghost predicate DegradedExact(h: seq<Event>, penalty: nat, degraded: Option<Timed>) {
    if h == [] then degraded == None
    else if h[|h| - 1].tripped then
      degraded == Some(Timed(1, if penalty == 0 then None else Some(h[|h| - 1].at + penalty)))
    else DegradedExact(h[..|h| - 1], penalty, degraded)
  }

  /** No bucket the five-minute window reads has expired. */
  lemma BucketAlive(h: seq<Event>, att: map<nat, Timed>, ans: map<nat, Timed>, now: nat, minute: int)
    requires BucketsExact(h, att, ans) && now / 60 - 4 <= minute <= now / 60
    ensures Read(Lookup(att, minute), now) == Attempts(h, minute, minute)
    ensures Read(Lookup(ans, minute), now) == Answers(h, minute, minute)
  {
    if minute < 0 {
      NothingBeforeZero(h, minute);
    }
  }

  lemma {:induction false} NothingBeforeZero(h: seq<Event>, m: int)
    requires m < 0
    ensures Attempts(h, m, m) == 0 && Answers(h, m, m) == 0
  {
    if h != [] {
      NothingBeforeZero(h[..|h| - 1], m);
    }
  }

  lemma ConsecIsStreak(h: seq<Event>, consec: Option<Timed>, now: nat)
    requires ConsecExact(h, consec) && now >= LastAt(h)
    ensures Read(consec, now) == Streak(h, now)
  {
  }

  lemma {:induction false} DegradedIff(h: seq<Event>, penalty: nat, degraded: Option<Timed>, now: nat)
    requires Ordered(h) && DegradedExact(h, penalty, degraded)
    ensures Present(degraded, now) <==> DegradedBy(h, penalty, now)
  {
    if h != [] {
      var init, e := h[..|h| - 1], h[|h| - 1];
      if e.tripped {
        assert penalty == 0 || now < e.at + penalty ==> DegradedBy(h, penalty, now);
      } else {
        DegradedIff(init, penalty, degraded, now);
        if DegradedBy(h, penalty, now) {
          var i :| 0 <= i < |h| && h[i].tripped && (penalty == 0 || now < h[i].at + penalty);
          assert init[i] == h[i];
        }
        if DegradedBy(init, penalty, now) {
          var i :| 0 <= i < |init| && init[i].tripped && (penalty == 0 || now < init[i].at + penalty);
          assert h[i] == init[i];
        }
      }
    }
  }

  /** A streak that has not tripped is below a positive threshold, in every history. */
  ghost predicate BelowThreshold(h: seq<Event>, threshold: int) {
    threshold > 0 ==> Streak(h, LastAt(h)) < threshold
  }

  /** The keys agree with the history. */
  ghost predicate Agree(h: seq<Event>, att: map<nat, Timed>, ans: map<nat, Timed>, consec: Option<Timed>,
                        degraded: Option<Timed>, penalty: nat, threshold: int)
  {
    && Ordered(h)
    && BucketsExact(h, att, ans)
    && ConsecExact(h, consec)
    && DegradedExact(h, penalty, degraded)
    && BelowThreshold(h, threshold)
  }

  lemma NextAgrees(h: seq<Event>, e: Event, att: map<nat, Timed>, ans: map<nat, Timed>, consec: Option<Timed>,
                   before: Option<Timed>, degraded: Option<Timed>, penalty: nat, threshold: int)
    requires Ordered(h) && e.at >= LastAt(h) && !e.outcome.Other? && BucketsExact(h + [e], att, ans)
    requires DegradedExact(h, penalty, before)
    requires degraded
        == if e.tripped then Some(Timed(1, if penalty == 0 then None else Some(e.at + penalty))) else before
    requires consec == Some(Timed(Streak(h + [e], e.at), Some(e.at + CONSEC_TTL)))
    requires threshold > 0 ==> Streak(h + [e], e.at) < threshold
    ensures Agree(h + [e], att, ans, consec, degraded, penalty, threshold)
  {
    assert (h + [e])[..|h|] == h;
    StreakNext(h, e, threshold);
  }

  class CircuitBreaker {
    const consecutiveFaults: int
    const asrPercent: int
    const minSamples: int
    const penalty: nat
    var att: map<nat, Timed>
    var ans: map<nat, Timed>
    var consec: Option<Timed>
    var degraded: Option<Timed>
    ghost var history: seq<Event>

    ghost predicate Valid()
      reads this
    {
      Agree(history, att, ans, consec, degraded, penalty, consecutiveFaults)
    }

    constructor (consecutiveFaults: int, asrPercent: int, minSamples: int, penalty: nat)
      ensures Valid() && history == []
      ensures this.consecutiveFaults == consecutiveFaults && this.asrPercent == asrPercent
      ensures this.minSamples == minSamples && this.penalty == penalty
    {
      this.consecutiveFaults, this.asrPercent, this.minSamples, this.penalty :=
        consecutiveFaults, asrPercent, minSamples, penalty;
      att, ans, consec, degraded, history := map[], map[], None, None, [];
    }

    method Degraded(now: nat) returns (r: bool)
      requires Valid()
      ensures r <==> DegradedBy(history, penalty, now)
    {
      DegradedIff(history, penalty, degraded, now);
      r := Present(degraded, now);
    }

    /** The window sums are the exact counts of the last five minutes. */
    method Window(now: nat) returns (attempts: nat, answered: nat)
      requires Valid() && now >= LastAt(history)
      ensures attempts == Attempts(history, now / 60 - 4, now / 60)
      ensures answered == Answers(history, now / 60 - 4, now / 60)
    {
      attempts, answered := WindowOf(att, ans, now, history);
    }

    /** Count one attempt and trip when a threshold is crossed; everything is decided by the exact history. */
    method Record(now: nat, outcome: Outcome) returns (r: bool)
      requires Valid() && now >= LastAt(history)
      modifies this
      ensures Valid()
      ensures r <==> DegradedBy(history, penalty, now)
      ensures outcome.Other? ==> history == old(history)
      ensures !outcome.Other? ==>
        history == old(history)
            + [Event(now, outcome, Trips(old(history), now, outcome, consecutiveFaults, asrPercent, minSamples))]
    {
      if outcome.Other? {
        r := Degraded(now);
        return;
      }
      var faults := Count(now, outcome);
      var tripped := Crossed(now, outcome, faults);
      if tripped {
        Trip(now, outcome);
      } else {
        NextAgrees(history, Event(now, outcome, false), att, ans, consec, degraded, degraded, penalty,
            consecutiveFaults);
        history := history + [Event(now, outcome, false)];
      }
      r := Degraded(now);
    }

    /** A threshold is crossed: faults in a row, or the share of answers in the last five minutes. */
    method Crossed(now: nat, outcome: Outcome, faults: nat) returns (tripped: bool)
      requires BucketsExact(history + [Event(now, outcome, false)], att, ans)
      requires faults == Streak(history + [Event(now, outcome, false)], now)
      ensures tripped <==> Trips(history, now, outcome, consecutiveFaults, asrPercent, minSamples)
    {
      tripped := outcome.CarrierFault? && consecutiveFaults > 0 && faults >= consecutiveFaults;
      if !tripped && asrPercent > 0 && minSamples > 0 {
        var attempts, answered := WindowOf(att, ans, now, history + [Event(now, outcome, false)]);
        tripped := attempts >= minSamples && answered * 100 < attempts * asrPercent;
      }
    }

    /** Open the breaker and start the fault count again. */
    method Trip(now: nat, ghost outcome: Outcome)
      requires Ordered(history) && now >= LastAt(history) && !outcome.Other?
      requires DegradedExact(history, penalty, degraded)
      requires BucketsExact(history + [Event(now, outcome, false)], att, ans)
      modifies this`degraded, this`consec, this`history
      ensures Valid() && history == old(history) + [Event(now, outcome, true)]
    {
      ghost var before := degraded;
      degraded := Some(Timed(1, if penalty == 0 then None else Some(now + penalty)));
      consec := Some(Timed(0, Some(now + CONSEC_TTL)));
      BucketsIgnoreTrips(history, now, outcome, att, ans);
      NextAgrees(history, Event(now, outcome, true), att, ans, consec, before, degraded, penalty, consecutiveFaults);
      history := history + [Event(now, outcome, true)];
    }

    /** The counter commands of one attempt. */
    method Count(now: nat, outcome: Outcome) returns (faults: nat)
      requires Valid() && now >= LastAt(history) && !outcome.Other?
      modifies this`att, this`ans, this`consec
      ensures BucketsExact(history + [Event(now, outcome, false)], att, ans)
      ensures faults == Streak(history + [Event(now, outcome, false)], now)
      ensures consec == Some(Timed(faults, Some(now + CONSEC_TTL)))
    {
      var minute := now / 60;
      faults := 0;
      ConsecIsStreak(history, consec, now);
      StreakNext(history, Event(now, outcome, false), 0);
      BucketsNext(history, att, ans, now, outcome);
      if outcome.CarrierFault? {
        faults := Read(consec, now) + 1;
        consec := Some(Timed(faults, Some(now + CONSEC_TTL)));
      } else {
        consec := Some(Timed(0, Some(now + CONSEC_TTL)));
      }
      att := att[minute := Timed(Read(Lookup(att, minute), now) + 1, Some(now + BUCKET_TTL))];
      if outcome.Answered? {
        ans := ans[minute := Timed(Read(Lookup(ans, minute), now) + 1, Some(now + BUCKET_TTL))];
      }
    }
  }

  /** An attempt lengthens the streak, breaks it, or trips and resets it. */
  lemma StreakNext(h: seq<Event>, e: Event, threshold: int)
    ensures Streak(h + [e], e.at) == if e.tripped || !e.outcome.CarrierFault? then 0 else 1 + Streak(h, e.at)
    ensures LastAt(h + [e]) == e.at
    ensures threshold > 0 && (e.outcome.CarrierFault? && 1 + Streak(h, e.at) >= threshold ==> e.tripped) ==>
      BelowThreshold(h + [e], threshold)
  {
    assert (h + [e])[..|h|] == h;
  }

  /** Sum the buckets of the last five minutes. */
  method WindowOf(att: map<nat, Timed>, ans: map<nat, Timed>, now: nat, ghost h: seq<Event>)
    returns (attempts: nat, answered: nat)
    requires BucketsExact(h, att, ans)
    ensures attempts == Attempts(h, now / 60 - 4, now / 60)
    ensures answered == Answers(h, now / 60 - 4, now / 60)
  {
    var minute: int := now / 60;
    attempts, answered := 0, 0;
    EmptyWindow(h, minute + 1, minute);
    for i := 0 to 5
      invariant attempts == Attempts(h, minute - i + 1, minute)
      invariant answered == Answers(h, minute - i + 1, minute)
    {
      BucketAlive(h, att, ans, now, minute - i);
      SplitWindow(h, minute - i, minute - i, minute);
      attempts := attempts + Read(Lookup(att, minute - i), now);
      answered := answered + Read(Lookup(ans, minute - i), now);
    }
  }

  /** Whether the next attempt opens the breaker, said of the history alone. */
  ghost predicate Trips(h: seq<Event>, now: nat, outcome: Outcome, threshold: int, asrPercent: int, minSamples: int) {
    var next := h + [Event(now, outcome, false)];
    || (outcome.CarrierFault? && threshold > 0 && Streak(next, now) >= threshold)
    || (asrPercent > 0 && minSamples > 0
        && Attempts(next, now / 60 - 4, now / 60) >= minSamples
        && Answers(next, now / 60 - 4, now / 60) * 100 < Attempts(next, now / 60 - 4, now / 60) * asrPercent)
  }

  /** The places in the history of the attempts, or of the answered ones, in the minutes lo to hi. */
  ghost function PlacesIn(h: seq<Event>, lo: int, hi: int, answered: bool): set<nat> {
    set i: nat | i < |h| && Falls(h[i], lo, hi, answered)
  }

  predicate Falls(e: Event, lo: int, hi: int, answered: bool) {
    lo <= e.at / 60 <= hi && (answered ==> e.outcome.Answered?)
  }

  lemma PlacesNext(h: seq<Event>, lo: int, hi: int, answered: bool)
    requires h != []
    ensures var n := |h| - 1;
      |PlacesIn(h, lo, hi, answered)|
      == |PlacesIn(h[..n], lo, hi, answered)| + if Falls(h[n], lo, hi, answered) then 1 else 0
  {
    var n := |h| - 1;
    var before, after, falls :=
      PlacesIn(h[..n], lo, hi, answered), PlacesIn(h, lo, hi, answered), Falls(h[n], lo, hi, answered);
    forall i: nat
      ensures i in after <==> i in before || (i == n && falls)
    {
      if i < n {
        assert h[..n][i] == h[i];
      }
    }
    if falls {
      assert after == before + {n};
    } else {
      assert after == before;
    }
  }

  lemma {:induction false} CountsArePlaces(h: seq<Event>, lo: int, hi: int)
    ensures Attempts(h, lo, hi) == |PlacesIn(h, lo, hi, false)| && Answers(h, lo, hi) == |PlacesIn(h, lo, hi, true)|
  {
    if h != [] {
      CountsArePlaces(h[..|h| - 1], lo, hi);
      PlacesNext(h, lo, hi, false);
      PlacesNext(h, lo, hi, true);
    } else {
      assert PlacesIn(h, lo, hi, false) == {} && PlacesIn(h, lo, hi, true) == {};
    }
  }

  /** The n latest attempts are carrier faults that did not trip, each less than ten minutes after the one before,
      the last less than ten minutes ago. */
  ghost predicate FaultsInARow(h: seq<Event>, now: nat, n: nat) {
    && n <= |h|
    && (forall i | |h| - n <= i < |h| :: h[i].outcome.CarrierFault? && !h[i].tripped)
    && (forall i | |h| - n <= i < |h| - 1 :: h[i + 1].at < h[i].at + 600)
    && (n > 0 ==> now < h[|h| - 1].at + 600)
  }

  lemma {:induction false} StreakIff(h: seq<Event>, now: nat, n: nat)
    ensures Streak(h, now) >= n <==> FaultsInARow(h, now, n)
  {
    if h != [] && n > 0 {
      var init, e := h[..|h| - 1], h[|h| - 1];
      StreakIff(init, e.at, n - 1);
      if FaultsInARow(init, e.at, n - 1) && e.outcome.CarrierFault? && !e.tripped && now < e.at + 600 {
        assert FaultsInARow(h, now, n);
      }
      if FaultsInARow(h, now, n) {
        assert FaultsInARow(init, e.at, n - 1);
      }
    }
  }

  /** An attempt opens the breaker exactly when it makes the threshold of faults in a row, or when the five minutes up
      to it hold enough attempts of which too few were answered. */
  lemma TripsIff(h: seq<Event>, now: nat, outcome: Outcome, threshold: int, asrPercent: int, minSamples: int)
    ensures var next, lo, hi := h + [Event(now, outcome, false)], now / 60 - 4, now / 60;
      var attempts, answered := |PlacesIn(next, lo, hi, false)|, |PlacesIn(next, lo, hi, true)|;
      Trips(h, now, outcome, threshold, asrPercent, minSamples) <==>
        || (threshold > 0 && FaultsInARow(next, now, threshold))
        || (asrPercent > 0 && 0 < minSamples <= attempts && answered * 100 < attempts * asrPercent)
  {
    var next := h + [Event(now, outcome, false)];
    CountsArePlaces(next, now / 60 - 4, now / 60);
    if threshold > 0 {
      StreakIff(next, now, threshold);
    }
  }

  /** Counting one attempt keeps the buckets exact. */
  lemma BucketsNext(h: seq<Event>, att: map<nat, Timed>, ans: map<nat, Timed>, now: nat, outcome: Outcome)
    requires BucketsExact(h, att, ans)
    ensures var m := now / 60;
      BucketsExact(h + [Event(now, outcome, false)],
        att[m := Timed(Read(Lookup(att, m), now) + 1, Some(now + BUCKET_TTL))],
        if outcome.Answered? then ans[m := Timed(Read(Lookup(ans, m), now) + 1, Some(now + BUCKET_TTL))] else ans)
  {
    var m: nat := now / 60;
    BucketAlive(h, att, ans, now, m);
    forall x: nat
      ensures Attempts(h + [Event(now, outcome, false)], x, x) == Attempts(h, x, x) + if x == m then 1 else 0
      ensures Answers(h + [Event(now, outcome, false)], x, x)
          == Answers(h, x, x) + if x == m && outcome.Answered? then 1 else 0
    {
      HistoryNext(h, Event(now, outcome, false), x, x);
    }
  }

  lemma BucketsIgnoreTrips(h: seq<Event>, now: nat, outcome: Outcome, att: map<nat, Timed>, ans: map<nat, Timed>)
    requires BucketsExact(h + [Event(now, outcome, false)], att, ans)
    ensures BucketsExact(h + [Event(now, outcome, true)], att, ans)
  {
    forall x: nat
      ensures Attempts(h + [Event(now, outcome, true)], x, x) == Attempts(h + [Event(now, outcome, false)], x, x)
      ensures Answers(h + [Event(now, outcome, true)], x, x) == Answers(h + [Event(now, outcome, false)], x, x)
    {
      HistoryNext(h, Event(now, outcome, false), x, x);
      HistoryNext(h, Event(now, outcome, true), x, x);
    }
  }
}
